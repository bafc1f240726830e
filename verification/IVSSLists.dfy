/** Member lists over every run of secret sharing: when they are accepted, that none is forgotten, and who reveals. */
module IVSSLists {
  import opened Quorums
  import opened Certification
  import opened IVSS
  import opened IVSSNode
  import opened IVSSChoice
  import opened IVSSRuns
  import opened IVSSMoves
  import opened IVSSTheorems

  /** Node `k` of an instance, if it is there. */
  ghost function InstAt(w: World, key: string, k: int): Instance
    requires key in w.insts && k in w.insts[key].nodes
  {
    w.insts[key].nodes[k].inst
  }

  ghost predicate Present(w: World, key: string, k: int) {
    key in w.insts && k in w.insts[key].nodes
  }

  /** What a step of another node or instance leaves alone. */
  lemma Untouched(net: Net, w: World, other: string, e: Event, key: string, k: int)
    requires net.p > 0 && CanStep(net, w, other, e) && Present(w, key, k)
    requires e.Post? || other != key || e.k != k
    ensures Present(Step(net, w, other, e), key, k)
    ensures Step(net, w, other, e).insts[key].nodes[k] == w.insts[key].nodes[k]
  {
  }

  lemma Touched(net: Net, w: World, key: string, e: Event)
    requires net.p > 0 && CanStep(net, w, key, e) && !e.Post?
    ensures var r := Reaction(net, w.fp[e.k], w.insts[key], e);
            && Present(Step(net, w, key, e), key, e.k)
            && Step(net, w, key, e).insts[key].nodes[e.k] == Node(r.inst, w.insts[key].nodes[e.k].results + r.results)
  {
  }

  // ------------------------------------------------------------------- acceptance

  /** The list is long enough, all EQUALs among its entries were cast, and no pair of it is marked at the node. */
  ghost predicate Acceptable(net: Net, board: set<Payload>, fp: set<(int, int)>, m: seq<int>) {
    && |m| >= net.cfg.n - net.cfg.t && MSet(m) in board
    && forall a, b :: 0 <= a < b < |m| ==>
         Equal(m[a], m[b]) in board && Equal(m[b], m[a]) in board && !Faulty(fp, m[a], m[b])
  }

  lemma VerifiedAcceptable(net: Net, s: Sys, fp: set<(int, int)>, equals: set<(int, int)>, m: seq<int>)
    requires Verified(net.cfg.n, net.cfg.t, equals, fp, m) && MSet(m) in s.board
    requires forall i, j :: (i, j) in equals ==> Equal(i, j) in s.board
    ensures Acceptable(net, s.board, fp, m)
  {
    CleanIsConfirmed(equals, fp, m);
  }

  /** What changes when a node takes an EQUAL or a list. */
  lemma Accepts(net: Net, s: Sys, fp: set<(int, int)>, k: int, x: Payload, order: seq<int>)
    requires net.p > 0 && k in s.nodes && NodeOk(net, s, fp, k, s.nodes[k]) && Enabled(net, s, Deliver(k, x, order))
    requires x.Equal? || x.MSet?
    ensures var inst := s.nodes[k].inst;
            var r := CastEffect(net.cfg.n, net.cfg.t, net.p, k, fp, inst, x, order);
            r.inst.completed && !inst.completed ==>
              && r.inst.mSet.Some? && Acceptable(net, s.board, fp, r.inst.mSet.value)
              && r.results == [SharingComplete(r.inst.mSet.value, inst.received)]
  {
    var inst := s.nodes[k].inst;
    match x
    case Equal(i, j) =>
      var next := inst.(equals := inst.equals + {(i, j)});
      if next.pending.Some? && Verified(net.cfg.n, net.cfg.t, next.equals, fp, next.pending.value) {
        VerifiedAcceptable(net, s, fp, next.equals, next.pending.value);
      }
    case MSet(m) =>
      if Verified(net.cfg.n, net.cfg.t, inst.equals, fp, m) {
        VerifiedAcceptable(net, s, fp, inst.equals, m);
      }
  }

  /** Nothing else completes the sharing phase. */
  lemma OthersDoNotAccept(net: Net, s: Sys, fp: set<(int, int)>, e: Event)
    requires net.p > 0 && Enabled(net, s, e) && !e.Post? && !(e.Deliver? && (e.payload.Equal? || e.payload.MSet?))
    ensures var r := Reaction(net, fp, s, e);
            var inst := s.nodes[e.k].inst;
            r.inst.completed == inst.completed && r.inst.mSet == inst.mSet && r.inst.pending == inst.pending
  {
  }

  /**
   At the step in which a node accepts a list, all EQUALs of the list were cast, no pair of it is marked at that node,
   and the node reports that list with its share.
   */
  lemma AcceptedIsClean(net: Net, w: World, key: string, e: Event, k: int)
    requires net.Valid() && Reachable(net, w) && CanStep(net, w, key, e) && Present(w, key, k) && k in w.fp
    requires !InstAt(w, key, k).completed
    ensures Present(Step(net, w, key, e), key, k)
    ensures var inst := InstAt(Step(net, w, key, e), key, k);
            inst.completed ==>
              && inst.mSet.Some? && Acceptable(net, w.insts[key].board, w.fp[k], inst.mSet.value)
              && Step(net, w, key, e).insts[key].nodes[k].results ==
                 w.insts[key].nodes[k].results + [SharingComplete(inst.mSet.value, InstAt(w, key, k).received)]
  {
    ReachableInv(net, w);
    var s := w.insts[key];
    assert SysInv(net, w.fp, s);
    if e.Post? || e.k != k {
      Untouched(net, w, key, e, key, k);
    } else {
      Touched(net, w, key, e);
      if e.Deliver? && (e.payload.Equal? || e.payload.MSet?) {
        Accepts(net, s, w.fp[k], k, e.payload, e.order);
      } else {
        OthersDoNotAccept(net, s, w.fp[k], e);
      }
    }
  }

  // ---------------------------------------------------------------- no list is lost

  /** The node has accepted the list or keeps it waiting. */
  ghost predicate Holds(w: World, key: string, k: int, m: seq<int>) {
    Present(w, key, k) && (InstAt(w, key, k).mSet == Some(m) || InstAt(w, key, k).pending == Some(m))
  }

  ghost predicate HeldBy(inst: Instance, m: seq<int>) {
    inst.mSet == Some(m) || inst.pending == Some(m)
  }

  lemma DeliveryHeld(n: nat, t: nat, fp: set<(int, int)>, inst: Instance, m: seq<int>)
    requires m != []
    ensures HeldBy(OnMSet(n, t, fp, inst, m).inst, m)
  {
  }

  lemma EqualHeld(n: nat, t: nat, k: int, fp: set<(int, int)>, inst: Instance, i: int, j: int, m: seq<int>)
    requires HeldBy(inst, m) && (inst.pending.Some? ==> !inst.completed) && (inst.mSet.Some? ==> inst.completed)
    ensures HeldBy(OnEqual(n, t, k, fp, inst, i, j).inst, m)
  {
  }

  lemma ReactionHolds(net: Net, s: Sys, fp: set<(int, int)>, e: Event, m: seq<int>)
    requires net.p > 0 && Enabled(net, s, e) && !e.Post? && e.k in s.nodes && NodeOk(net, s, fp, e.k, s.nodes[e.k])
    requires HeldBy(s.nodes[e.k].inst, m)
    ensures HeldBy(Reaction(net, fp, s, e).inst, m)
  {
    if e.Deliver? && e.payload.Equal? {
      EqualHeld(net.cfg.n, net.cfg.t, e.k, fp, s.nodes[e.k].inst, e.payload.i, e.payload.j, m);
    } else if !(e.Deliver? && e.payload.MSet?) {
      OthersDoNotAccept(net, s, fp, e);
    }
  }

  lemma StepHolds(net: Net, w: World, other: string, e: Event, key: string, k: int, m: seq<int>)
    requires net.Valid() && Inv(net, w) && CanStep(net, w, other, e) && Holds(w, key, k, m)
    ensures Holds(Step(net, w, other, e), key, k, m)
  {
    if e.Post? || other != key || e.k != k {
      Untouched(net, w, other, e, key, k);
    } else {
      assert SysInv(net, w.fp, w.insts[key]);
      Touched(net, w, key, e);
      ReactionHolds(net, w.insts[key], w.fp[k], e, m);
    }
  }

  lemma {:induction false} RunHolds(net: Net, w: World, steps: seq<(string, Event)>, w': World, key: string, k: int,
                                    m: seq<int>)
    requires net.Valid() && Inv(net, w) && Run(net, w, steps, w') && Holds(w, key, k, m)
    ensures Holds(w', key, k, m)
    decreases |steps|
  {
    if steps != [] {
      StepInv(net, w, steps[0].0, steps[0].1);
      StepHolds(net, w, steps[0].0, steps[0].1, key, k, m);
      RunHolds(net, Step(net, w, steps[0].0, steps[0].1), steps[1..], w', key, k, m);
    }
  }

  lemma DeliveredHolds(net: Net, w: World, key: string, k: int, m: seq<int>, order: seq<int>)
    requires net.p > 0 && CanStep(net, w, key, Deliver(k, MSet(m), order)) && m != []
    ensures Holds(Step(net, w, key, Deliver(k, MSet(m), order)), key, k, m)
  {
    Touched(net, w, key, Deliver(k, MSet(m), order));
    DeliveryHeld(net.cfg.n, net.cfg.t, w.fp[k], w.insts[key].nodes[k].inst, m);
  }

  /** A list that was delivered is held ever after. */
  lemma {:induction false} ListHeld(net: Net, w: World, steps: seq<(string, Event)>, w': World, key: string, k: int,
                                    m: seq<int>, order: seq<int>)
    requires net.Valid() && Inv(net, w) && Run(net, w, steps, w') && m != []
    requires (key, Deliver(k, MSet(m), order)) in steps
    ensures Holds(w', key, k, m)
    decreases |steps|
  {
    var w1 := Step(net, w, steps[0].0, steps[0].1);
    StepInv(net, w, steps[0].0, steps[0].1);
    if steps[0] == (key, Deliver(k, MSet(m), order)) {
      DeliveredHolds(net, w, key, k, m, order);
      RunHolds(net, w1, steps[1..], w', key, k, m);
    } else {
      ListHeld(net, w1, steps[1..], w', key, k, m, order);
    }
  }

  /** Too short, or some pair of it has not confirmed each other at the node or is marked there. */
  ghost predicate Lacks(net: Net, inst: Instance, fp: set<(int, int)>, m: seq<int>) {
    |m| < net.cfg.n - net.cfg.t || exists a, b :: 0 <= a < b < |m| && Clash(inst.equals, fp, m[a], m[b])
  }

  lemma NotVerifiedLacks(net: Net, inst: Instance, fp: set<(int, int)>, m: seq<int>)
    requires !Verified(net.cfg.n, net.cfg.t, inst.equals, fp, m)
    ensures Lacks(net, inst, fp, m)
  {
    CleanIsConfirmed(inst.equals, fp, m);
    if |m| >= net.cfg.n - net.cfg.t {
      var a, b :| 0 <= a < b < |m| && !((m[a], m[b]) in inst.equals && (m[b], m[a]) in inst.equals
                                        && Ordered(m[a], m[b]) !in fp);
      assert Clash(inst.equals, fp, m[a], m[b]);
    }
  }

  /**
   In every run a list that was delivered to a node is accepted by it, or waits there and still lacks something.
   */
  lemma NoListForgotten(net: Net, w0: World, steps: seq<(string, Event)>, w: World, key: string, k: int, m: seq<int>,
                        order: seq<int>)
    requires net.Valid() && Init(net, w0) && Run(net, w0, steps, w) && m != []
    requires (key, Deliver(k, MSet(m), order)) in steps
    ensures Present(w, key, k) && k in w.fp
    ensures InstAt(w, key, k).mSet == Some(m)
            || (InstAt(w, key, k).pending == Some(m) && Lacks(net, InstAt(w, key, k), w.fp[k], m))
  {
    InitInv(net, w0);
    ListHeld(net, w0, steps, w, key, k, m, order);
    RunInv(net, w0, steps, w);
    assert SysInv(net, w.fp, w.insts[key]);
    assert NodeOk(net, w.insts[key], w.fp[k], k, w.insts[key].nodes[k]);
    if InstAt(w, key, k).pending == Some(m) {
      NotVerifiedLacks(net, InstAt(w, key, k), w.fp[k], m);
    }
  }

  // ------------------------------------------------------------------- who reveals

  /** Honest nodes reveal only as members of the list they accepted. */
  ghost predicate RevealOk(net: Net, s: Sys) {
    forall i, f :: Reveal(i, f) in s.board && i in net.H() && i in s.nodes ==> IsMember(s.nodes[i].inst, i)
  }

  ghost predicate IsMember(inst: Instance, i: int) {
    inst.completed && inst.mSet.Some? && i in inst.mSet.value
  }

  lemma MemberStays(net: Net, s: Sys, fp: set<(int, int)>, e: Event)
    requires net.p > 0 && Enabled(net, s, e) && !e.Post? && e.k in s.nodes && NodeOk(net, s, fp, e.k, s.nodes[e.k])
    requires IsMember(s.nodes[e.k].inst, e.k)
    ensures IsMember(Reaction(net, fp, s, e).inst, e.k)
  {
    if !(e.Deliver? && (e.payload.Equal? || e.payload.MSet?)) {
      OthersDoNotAccept(net, s, fp, e);
    }
  }

  lemma DealRevealsNothing(net: Net, k: int, inst: Instance, from: int, poly: seq<int>, order: seq<int>, o: Out)
    requires net.p > 0 && forall a :: 0 <= a < |order| ==> order[a] in inst.early
    requires o in OnShare(net.cfg.n, net.p, k, inst, from, poly, order).sent
    ensures !(o.Cast? && o.payload.Reveal?)
  {
    if o in PointsTo(net.p, poly, net.cfg.n) {
      PointsSent(net.p, poly, net.cfg.n, o);
    } else {
      ConfirmationsSent(net.p, k, poly, inst.early, order, |order|, o);
    }
  }

  /** A node reveals when it is asked to, as a member of its list, and what it reveals is its share. */
  lemma RevealsAsMember(net: Net, s: Sys, fp: set<(int, int)>, e: Event, i: int, f: seq<int>)
    requires net.p > 0 && Enabled(net, s, e) && !e.Post? && Cast(Reveal(i, f)) in Reaction(net, fp, s, e).sent
    ensures e.Begin? && i == e.k && IsMember(s.nodes[i].inst, i)
  {
    if e.Deal? {
      DealRevealsNothing(net, e.k, s.nodes[e.k].inst, e.from, e.poly, e.order, Cast(Reveal(i, f)));
    }
  }

  lemma ReactionReveals(net: Net, s: Sys, fp: set<(int, int)>, e: Event)
    requires net.p > 0 && Enabled(net, s, e) && !e.Post? && e.k in s.nodes && NodeOk(net, s, fp, e.k, s.nodes[e.k])
    requires RevealOk(net, s)
    ensures RevealOk(net, Moved(s, e.k, Reaction(net, fp, s, e)))
  {
    var r := Reaction(net, fp, s, e);
    var s' := Moved(s, e.k, r);
    forall i, f | Reveal(i, f) in s'.board && i in net.H() && i in s'.nodes ensures IsMember(s'.nodes[i].inst, i) {
      if Reveal(i, f) !in s.board {
        RevealsAsMember(net, s, fp, e, i, f);
      }
      if i == e.k {
        MemberStays(net, s, fp, e);
      }
    }
  }

  ghost predicate AllRevealOk(net: Net, insts: map<string, Sys>) {
    forall key :: key in insts ==> RevealOk(net, insts[key])
  }

  lemma PostReveals(net: Net, s: Sys, x: Payload)
    requires RevealOk(net, s) && MayPost(net, s, x)
    ensures RevealOk(net, s.(board := s.board + {x}))
  {
  }

  lemma RevealPut(net: Net, insts: map<string, Sys>, key: string, s: Sys)
    requires AllRevealOk(net, insts) && RevealOk(net, s)
    ensures AllRevealOk(net, insts[key := s])
  {
  }

  lemma StepReveals(net: Net, w: World, key: string, e: Event)
    requires net.Valid() && Inv(net, w) && CanStep(net, w, key, e) && AllRevealOk(net, w.insts)
    ensures AllRevealOk(net, Step(net, w, key, e).insts)
  {
    var s := w.insts[key];
    if e.Post? {
      PostReveals(net, s, e.payload);
      RevealPut(net, w.insts, key, s.(board := s.board + {e.payload}));
    } else {
      ActorOk(net, w, key, e.k);
      ReactionReveals(net, s, w.fp[e.k], e);
      RevealPut(net, w.insts, key, Moved(s, e.k, Reaction(net, w.fp[e.k], s, e)));
    }
  }

  lemma ActorOk(net: Net, w: World, key: string, k: int)
    requires net.p > 0 && Inv(net, w) && Present(w, key, k)
    ensures k in w.fp && NodeOk(net, w.insts[key], w.fp[k], k, w.insts[key].nodes[k])
  {
    assert SysInv(net, w.fp, w.insts[key]);
  }

  lemma {:induction false} RunReveals(net: Net, w: World, steps: seq<(string, Event)>, w': World)
    requires net.Valid() && Inv(net, w) && Run(net, w, steps, w') && AllRevealOk(net, w.insts)
    ensures AllRevealOk(net, w'.insts)
    decreases |steps|
  {
    if steps != [] {
      StepInv(net, w, steps[0].0, steps[0].1);
      StepReveals(net, w, steps[0].0, steps[0].1);
      RunReveals(net, Step(net, w, steps[0].0, steps[0].1), steps[1..], w');
    }
  }

  /** In every run an honest node that has revealed is a member of the list it accepted. */
  lemma RevealersAreMembers(net: Net, w: World, key: string, i: int, f: seq<int>)
    requires net.Valid() && Reachable(net, w) && Present(w, key, i) && i in net.H()
    requires Reveal(i, f) in w.insts[key].board
    ensures InstAt(w, key, i).completed && InstAt(w, key, i).mSet.Some? && i in InstAt(w, key, i).mSet.value
    ensures InstAt(w, key, i).received == Some(f)
  {
    ReachableInv(net, w);
    ReachableReveals(net, w);
    RevealerIs(net, w, key, i, f);
  }

  lemma ReachableReveals(net: Net, w: World)
    requires net.Valid() && Reachable(net, w)
    ensures AllRevealOk(net, w.insts)
  {
    var w0, steps :| Init(net, w0) && Run(net, w0, steps, w);
    InitInv(net, w0);
    InitReveals(net, w0);
    RunReveals(net, w0, steps, w);
  }

  lemma InitReveals(net: Net, w: World)
    requires Init(net, w)
    ensures AllRevealOk(net, w.insts)
  {
    forall key | key in w.insts ensures RevealOk(net, w.insts[key]) {
      assert InitSys(net, w.insts[key]);
    }
  }

  lemma RevealerIs(net: Net, w: World, key: string, i: int, f: seq<int>)
    requires net.p > 0 && Inv(net, w) && AllRevealOk(net, w.insts) && Present(w, key, i) && i in net.H()
    requires Reveal(i, f) in w.insts[key].board
    ensures IsMember(InstAt(w, key, i), i) && InstAt(w, key, i).received == Some(f)
  {
    assert RevealOk(net, w.insts[key]) && SysInv(net, w.fp, w.insts[key]);
    assert Justified(net, w.insts[key], Reveal(i, f));
  }

  /** A member that is asked to reveals its share. */
  lemma MembersReveal(net: Net, w: World, key: string, k: int)
    requires net.p > 0 && CanStep(net, w, key, Begin(k)) && IsMember(InstAt(w, key, k), k)
    requires InstAt(w, key, k).received.Some?
    ensures Reveal(k, InstAt(w, key, k).received.value) in Step(net, w, key, Begin(k)).insts[key].board
  {
    var inst := InstAt(w, key, k);
    assert Cast(Reveal(k, inst.received.value)) in Begun(k, inst).sent;
  }

  // ----------------------------------------------------------------- what dealers offer

  /** After one more EQUAL an unfinished dealer with `n - t` chosen members casts exactly their list. */
  lemma DealerOffers(net: Net, s: Sys, fp: set<(int, int)>, k: int, i: int, j: int, order: seq<int>, m: seq<int>)
    requires net.p > 0 && Enabled(net, s, Deliver(k, Equal(i, j), order))
    requires Chosen(s.nodes[k].inst.equals + {(i, j)}, fp, net.cfg.n, m)
    ensures Reaction(net, fp, s, Deliver(k, Equal(i, j), order)).sent ==
            if k == s.nodes[k].inst.dealer && !s.nodes[k].inst.completed && |m| >= net.cfg.n - net.cfg.t
            then [Cast(MSet(m))] else []
  {
    OfferIs(net.cfg.n, net.cfg.t, k, fp, s.nodes[k].inst.(equals := s.nodes[k].inst.equals + {(i, j)}), m);
  }
}
