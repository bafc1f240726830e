/** The sharing service of one node: handlers with their loops, each refining the functions of `IVSSNode`. */
module IVSSService {
  import opened Quorums
  import opened Modular
  import opened Lagrange
  import opened Sharing
  import opened Bivariate
  import opened Certification
  import opened Polynomial
  import opened Interpolation
  import opened IVSS
  import opened IVSSNode
  import opened IVSSChoice

  /** Ids that differ modulo `p`, as `ModInverse` demands of the points it interpolates at. */
  lemma ApartDistinct(p: int, s: set<int>, xs: seq<int>)
    requires p > 0 && Apart(p, s) && Unique(xs) && forall a :: 0 <= a < |xs| ==> xs[a] in s
    ensures Distinct(p, xs)
  {
    forall i, j | 0 <= i < |xs| && 0 <= j < |xs| && i != j ensures !Cong(p, xs[i] - xs[j], 0) {
      assert xs[i] != xs[j];
    }
  }

  lemma PrefixIsElems(xs: seq<int>)
    ensures Prefix(xs, |xs|) == Elems(xs)
  {
    InPrefix(xs, |xs|);
    forall x | x in Prefix(xs, |xs|) ensures x in Elems(xs) {
      var i :| 0 <= i < |xs| && xs[i] == x;
    }
    forall x | x in Elems(xs) ensures x in Prefix(xs, |xs|) {
      var i :| 0 <= i < |xs| && xs[i] == x;
    }
  }

  class IVSSService {
    const id: int
    const n: nat
    const t: nat
    const p: int
    const cp: CertificationProtocol
    var instances: map<string, Instance>
    var outbox: seq<Out>
    var results: seq<Result>

    constructor (id: int, n: nat, t: nat, p: int, cp: CertificationProtocol)
      ensures this.id == id && this.n == n && this.t == t && this.p == p && this.cp == cp
      ensures instances == map[] && outbox == [] && results == []
    {
      this.id, this.n, this.t, this.p, this.cp := id, n, t, p, cp;
      instances, outbox, results := map[], [], [];
    }

    method VerifyMSet(inst: Instance, m: seq<int>) returns (ok: bool)
      ensures ok <==> Verified(n, t, inst.equals, cp.fp, m)
      ensures ok <==> |m| >= n - t && forall a, b :: 0 <= a < b < |m| ==>
        (m[a], m[b]) in inst.equals && (m[b], m[a]) in inst.equals && !Faulty(cp.fp, m[a], m[b])
    {
      if |m| < n - t {
        return false;
      }
      var i := 0;
      while i < |m|
        invariant 0 <= i <= |m|
        invariant forall a, b :: 0 <= a < i && a < b < |m| ==> Confirmed(inst.equals, cp.fp, m[a], m[b])
      {
        var j := i + 1;
        while j < |m|
          invariant i < j <= |m|
          invariant forall b :: i < b < j ==> Confirmed(inst.equals, cp.fp, m[i], m[b])
        {
          if (m[i], m[j]) !in inst.equals {
            return false;
          }
          if (m[j], m[i]) !in inst.equals {
            return false;
          }
          var faulty := cp.IsFaultyPair(m[i], m[j]);
          if faulty {
            return false;
          }
          j := j + 1;
        }
        i := i + 1;
      }
      ok := true;
    }

    method CanAdd(inst: Instance, m: seq<int>, candidate: int) returns (ok: bool)
      ensures ok <==> FitsAll(inst.equals, cp.fp, m, candidate)
      ensures ok <==> forall a :: 0 <= a < |m| ==>
        (candidate, m[a]) in inst.equals && (m[a], candidate) in inst.equals && !Faulty(cp.fp, candidate, m[a])
    {
      ok := true;
      var a := 0;
      while a < |m|
        invariant 0 <= a <= |m| && ok
        invariant forall b :: 0 <= b < a ==> Confirmed(inst.equals, cp.fp, candidate, m[b])
      {
        if (candidate, m[a]) !in inst.equals || (m[a], candidate) !in inst.equals {
          ok := false;
          break;
        }
        var faulty := cp.IsFaultyPair(candidate, m[a]);
        if faulty {
          ok := false;
          break;
        }
        a := a + 1;
      }
    }

    method CheckCandidateSet(inst: Instance)
      modifies this`outbox
      ensures outbox == old(outbox) + Offer(n, t, id, cp.fp, inst)
      ensures id != inst.dealer || inst.completed ==> outbox == old(outbox)
      ensures id == inst.dealer && !inst.completed ==>
        exists m ::
          && Chosen(inst.equals, cp.fp, n, m)
          && outbox == old(outbox) + (if |m| >= n - t then [Cast(MSet(m))] else [])
    {
      if id != inst.dealer || inst.completed {
        return;
      }
      var m: seq<int> := [];
      var candidate := 1;
      while candidate <= n
        invariant 1 <= candidate <= n + 1 && outbox == old(outbox)
        invariant m == Greedy(inst.equals, cp.fp, candidate - 1)
      {
        var canAdd := CanAdd(inst, m, candidate);
        if canAdd {
          m := m + [candidate];
        }
        candidate := candidate + 1;
      }
      GreedyChosen(inst.equals, cp.fp, n);
      if |m| >= n - t {
        outbox := outbox + [Cast(MSet(m))];
      }
    }

    method ProcessPoint(poly: seq<int>, from: int, value: int)
      requires p > 0
      modifies this`outbox
      ensures outbox == old(outbox) + Confirm(p, id, poly, from, value)
      ensures outbox == old(outbox) + (if Eval(poly, from) % p == value then [Cast(Equal(id, from))] else [])
    {
      var mine := Evaluate(p, poly, from);
      if mine == value {
        outbox := outbox + [Cast(Equal(id, from))];
      }
    }

    method OnShareMessage(inst: Instance, from: int, poly: seq<int>) returns (inst': Instance, ghost order: seq<int>)
      requires p > 0
      modifies this`outbox
      ensures Lists(order, inst.early.Keys)
      ensures var e := OnShare(n, p, id, inst, from, poly, order); inst' == e.inst && outbox == old(outbox) + e.sent
      ensures inst' == inst.(received := Some(poly), dealer := from, early := map[])
    {
      inst' := inst.(received := Some(poly), dealer := from);
      var j := 1;
      while j <= n
        invariant 1 <= j <= n + 1
        invariant outbox == old(outbox) + PointsTo(p, poly, j - 1)
      {
        var value := Evaluate(p, poly, j);
        outbox := outbox + [Point(j, value)];
        j := j + 1;
      }
      order := ConfirmEarly(poly, inst.early);
      inst' := inst'.(early := map[]);
    }

    /** The buffered points, in whatever order the map yields them. */
    method ConfirmEarly(poly: seq<int>, early: map<int, int>) returns (ghost order: seq<int>)
      requires p > 0
      modifies this`outbox
      ensures Lists(order, early.Keys)
      ensures outbox == old(outbox) + ConfirmAll(p, id, poly, early, order, |order|)
    {
      order := [];
      var left := early.Keys;
      ghost var done: set<int> := {};
      while left != {}
        invariant done + left == early.Keys && done !! left && Lists(order, done)
        invariant outbox == old(outbox) + ConfirmAll(p, id, poly, early, order, |order|)
        decreases |left|
      {
        ghost var some := Pick(left);
        var from :| from in left;
        ProcessPoint(poly, from, early[from]);
        ConfirmNext(p, id, poly, early, order, from, old(outbox));
        ListsMore(order, done, from);
        order, done := order + [from], done + {from};
        left := left - {from};
      }
    }

    method OnPointMessage(inst: Instance, from: int, value: int) returns (inst': Instance)
      requires p > 0
      modifies this`outbox
      ensures var e := OnPoint(p, id, inst, from, value); inst' == e.inst && outbox == old(outbox) + e.sent
      ensures inst.received.None? ==> inst' == inst.(early := inst.early[from := value]) && outbox == old(outbox)
      ensures inst.received.Some? ==> inst' == inst
      ensures inst.received.Some? ==>
        outbox == old(outbox) + (if Eval(inst.received.value, from) % p == value then [Cast(Equal(id, from))] else [])
    {
      inst' := inst;
      if inst.received.None? {
        inst' := inst.(early := inst.early[from := value]);
        return;
      }
      ProcessPoint(inst.received.value, from, value);
    }

    method OnEqualDelivered(inst: Instance, i: int, j: int) returns (inst': Instance)
      modifies this`outbox, this`results
      ensures var e := OnEqual(n, t, id, cp.fp, inst, i, j);
              inst' == e.inst && outbox == old(outbox) + e.sent && results == old(results) + e.results
      ensures var next := inst.(equals := inst.equals + {(i, j)});
              if inst.pending.Some? && !inst.completed && |inst.pending.value| >= n - t
                 && Clean(next.equals, cp.fp, inst.pending.value)
              then inst' == next.(mSet := inst.pending, completed := true, pending := None)
                   && results == old(results) + [SharingComplete(inst.pending.value, inst.received)]
              else inst' == next && results == old(results)
    {
      inst' := inst.(equals := inst.equals + {(i, j)});
      CheckCandidateSet(inst');
      if inst'.pending.Some? && !inst'.completed {
        var ok := VerifyMSet(inst', inst'.pending.value);
        if ok {
          inst' := inst'.(mSet := inst'.pending, completed := true, pending := None);
          results := results + [SharingComplete(inst'.mSet.value, inst'.received)];
        }
      }
    }

    method OnMSetDelivered(inst: Instance, m: seq<int>) returns (inst': Instance)
      modifies this`results
      ensures var e := OnMSet(n, t, cp.fp, inst, m); inst' == e.inst && results == old(results) + e.results
      ensures if |m| >= n - t && Clean(inst.equals, cp.fp, m)
              then inst' == inst.(mSet := Some(m), completed := true, pending := None)
                   && results == old(results) + [SharingComplete(m, inst.received)]
              else inst' == inst.(pending := if m == [] then None else Some(m)) && results == old(results)
    {
      inst' := inst.(pending := AsPending(m));
      var ok := VerifyMSet(inst', m);
      if ok {
        inst' := inst'.(mSet := Some(m), completed := true, pending := None);
        results := results + [SharingComplete(m, inst'.received)];
      }
    }

    method OnReadyDelivered(inst: Instance, sender: int) returns (inst': Instance)
      modifies this`results
      ensures var e := OnReady(n, t, inst, sender); inst' == e.inst && results == old(results) + e.results
      ensures var next := inst.(ready := inst.ready + {sender});
              if |next.ready| >= n - t && !inst.reconstructed && inst.secret.Some?
              then inst' == next.(reconstructed := true) && results == old(results) + [Reconstructed(inst.secret.value)]
              else inst' == next && results == old(results)
    {
      inst' := inst.(ready := inst.ready + {sender});
      if |inst'.ready| >= n - t && !inst'.reconstructed {
        if inst'.secret.Some? {
          inst' := inst'.(reconstructed := true);
          results := results + [Reconstructed(inst'.secret.value)];
        }
      }
    }

    method Members(m: seq<int>) returns (s: set<int>)
      ensures s == Elems(m)
    {
      s := {};
      var a := 0;
      while a < |m|
        invariant 0 <= a <= |m| && s == Elems(m[..a])
      {
        assert m[..a + 1] == m[..a] + [m[a]];
        s := s + {m[a]};
        a := a + 1;
      }
      assert m[..a] == m;
    }

    /** The revealed polynomials that belong to members, in whatever order the map yields them. */
    method FindCandidates(inst: Instance) returns (order: seq<int>)
      requires inst.mSet.Some?
      ensures Lists(order, Candidates(inst))
    {
      var members := Members(inst.mSet.value);
      order := [];
      var left := inst.polys.Keys;
      while left != {}
        invariant left <= inst.polys.Keys
        invariant Lists(order, (inst.polys.Keys - left) * members)
        decreases |left|
      {
        ghost var some := Pick(left);
        var k :| k in left;
        if k in members {
          order := order + [k];
        }
        left := left - {k};
      }
      assert (inst.polys.Keys - left) * members == Candidates(inst);
    }

    method FirstConflict(polys: map<int, seq<int>>, valid: seq<int>, c: int) returns (bad: Option<int>)
      requires p > 0
      ensures bad == Conflict(p, polys, valid, c, 0)
    {
      bad := None;
      var a := 0;
      while a < |valid|
        invariant 0 <= a <= |valid| && bad.None?
        invariant Conflict(p, polys, valid, c, 0) == Conflict(p, polys, valid, c, a)
      {
        var here := Evaluate(p, Slice(polys, c), valid[a]);
        var there := Evaluate(p, Slice(polys, valid[a]), c);
        if here != there {
          bad := Some(valid[a]);
          return;
        }
        a := a + 1;
      }
    }

    /** The greedy pass over the candidates; contradicting pairs go to the certification protocol. */
    method SiftCandidates(polys: map<int, seq<int>>, order: seq<int>) returns (valid: seq<int>)
      requires p > 0
      modifies cp
      ensures valid == Sift(p, polys, order, |order|).valid
      ensures cp.fp == old(cp.fp) + Sift(p, polys, order, |order|).blamed
    {
      valid := [];
      var k := 0;
      while k < |order|
        invariant 0 <= k <= |order| && valid == Sift(p, polys, order, k).valid
        invariant cp.fp == old(cp.fp) + Sift(p, polys, order, k).blamed
      {
        var bad := FirstConflict(polys, valid, order[k]);
        if bad.Some? {
          cp.AddFaultyPair(order[k], bad.value);
        } else {
          valid := valid + [order[k]];
        }
        k := k + 1;
      }
    }

    /** Interpolates the kept polynomials' values at 0. */
    method Combine(polys: map<int, seq<int>>, valid: seq<int>) returns (secret: int)
      requires Prime(p) && Unique(valid) && Distinct(p, valid)
      ensures secret == SecretOf(p, polys, valid)
    {
      var values: seq<int> := [];
      var a := 0;
      while a < |valid|
        invariant 0 <= a == |values| <= |valid|
        invariant forall b :: 0 <= b < a ==> values[b] == Eval(Slice(polys, valid[b]), 0) % p
      {
        var value := Evaluate(p, Slice(polys, valid[a]), 0);
        values := values + [value];
        a := a + 1;
      }
      secret := InterpolateAtZero(p, valid, values);
      PrefixIsElems(valid);
      ListsOfSlices(p, valid, values, polys);
      CongResidues(p, Interp(p, Elems(valid), Table(valid, values, |valid|)),
                   Interp(p, Elems(valid), Zeros(Elems(valid), polys)));
    }

    method CheckInterpolationSet(inst: Instance) returns (inst': Instance, ghost order: seq<int>)
      requires Prime(p) && Apart(p, Candidates(inst))
      modifies this`outbox, cp
      ensures Lists(order, Candidates(inst))
      ensures var e := Interpolate(n, t, p, id, inst, order);
              inst' == e.inst && outbox == old(outbox) + e.sent && cp.fp == old(cp.fp) + e.blamed
      ensures inst.mSet.None? || |order| < n - 2 * t ==>
        inst' == inst && outbox == old(outbox) && cp.fp == old(cp.fp)
      ensures inst.mSet.Some? && |order| >= n - 2 * t ==> exists kept, blamed ::
        && Kept(p, inst.polys, order, |order|, kept) && Marks(p, inst.polys, order, |order|, kept, blamed)
        && cp.fp == old(cp.fp) + blamed
        && if |kept| >= n - 2 * t && |kept| >= 1
           then inst' == inst.(secret := Some(Interp(p, kept, Zeros(kept, inst.polys)) % p))
                && outbox == old(outbox) + [Cast(Ready(id))]
           else inst' == inst && outbox == old(outbox)
    {
      inst', order := inst, [];
      if inst.mSet.None? {
        return;
      }
      var candidates := FindCandidates(inst);
      order := candidates;
      if |candidates| < n - 2 * t {
        return;
      }
      var valid := SiftCandidates(inst.polys, candidates);
      ghost var kept, blamed := KeptOf(p, inst.polys, candidates);
      var target := n - 2 * t;
      if target <= 0 {
        target := 1;
      }
      if |valid| >= target {
        KeptDistinct(p, inst, candidates);
        var secret := Combine(inst.polys, valid);
        inst' := inst.(secret := Some(secret));
        outbox := outbox + [Cast(Ready(id))];
      }
    }

    method OnRevealDelivered(inst: Instance, sender: int, poly: seq<int>)
      returns (inst': Instance, ghost order: seq<int>)
      requires Prime(p) && Apart(p, Candidates(inst.(polys := inst.polys[sender := poly])))
      modifies this`outbox, cp
      ensures Lists(order, Candidates(inst.(polys := inst.polys[sender := poly])))
      ensures var e := OnReveal(n, t, p, id, inst, sender, poly, order);
              inst' == e.inst && outbox == old(outbox) + e.sent && cp.fp == old(cp.fp) + e.blamed
    {
      inst', order := CheckInterpolationSet(inst.(polys := inst.polys[sender := poly]));
    }

    /** The dealer's part: a random symmetric polynomial, one slice to each node. */
    method StartSharing(secret: int, draws: seq<int>) returns (ok: bool, ghost c: seq<seq<int>>, ghost shares: seq<Out>)
      requires p > 0
      modifies this`outbox
      ensures ok <==> |draws| >= Triangle(t + 1) - 1
      ensures outbox == old(outbox) + shares && |shares| == (if ok then n else 0)
      ensures ok ==> |c| == t + 1 && Symmetric(c) && c[0][0] == secret
      ensures ok ==> forall a :: 0 <= a < n ==> SharesSlice(p, c, a + 1, shares[a])
    {
      ok, c, shares := false, [], [];
      var poly := NewRandomSymmetric(t, secret, draws);
      if poly.None? {
        return;
      }
      ok, c := true, poly.value.Matrix();
      shares := DealSlices(poly.value);
    }

    method DealSlices(poly: SymmetricPolynomial) returns (ghost shares: seq<Out>)
      requires p > 0 && poly.Valid()
      modifies this`outbox
      ensures outbox == old(outbox) + shares && |shares| == n
      ensures forall a :: 0 <= a < n ==> SharesSlice(p, poly.Matrix(), a + 1, shares[a])
    {
      shares := [];
      ghost var c := poly.Matrix();
      var k := 1;
      while k <= n
        invariant 1 <= k <= n + 1 && |shares| == k - 1 && outbox == old(outbox) + shares
        invariant forall a :: 0 <= a < k - 1 ==> SharesSlice(p, c, a + 1, shares[a])
      {
        var f := poly.GetUnivariate(p, k);
        outbox := outbox + [Share(k, f)];
        shares := shares + [Share(k, f)];
        k := k + 1;
      }
    }

    method GetInstance(key: string, dealer: int) returns (inst: Instance)
      modifies this`instances
      ensures inst == (if key in old(instances) then old(instances)[key] else Fresh(dealer))
      ensures instances == old(instances)[key := inst]
    {
      if key !in instances {
        instances := instances[key := Fresh(dealer)];
      }
      inst := instances[key];
    }

    /** Point-to-point messages: shares from the dealer, points from the other nodes. */
    method OnDirect(key: string, from: int, to: int, body: Direct) returns (ghost order: seq<int>)
      requires p > 0
      modifies this`instances, this`outbox
      ensures to != id ==> instances == old(instances) && outbox == old(outbox)
      ensures to == id ==>
        var inst := if key in old(instances) then old(instances)[key] else Fresh(from);
        && (body.Dealt? ==> Lists(order, inst.early.Keys))
        && var e := DirectEffect(n, p, id, inst, from, body, order);
           instances == old(instances)[key := e.inst] && outbox == old(outbox) + e.sent
    {
      order := [];
      if to != id {
        return;
      }
      var inst := GetInstance(key, from);
      match body {
        case Dealt(poly) => inst, order := OnShareMessage(inst, from, poly);
        case Sample(value) => inst := OnPointMessage(inst, from, value);
      }
      instances := instances[key := inst];
    }

    /** Deliveries of the inner A-Cast. */
    method OnACastDelivered(key: string, payload: Payload) returns (ghost order: seq<int>)
      requires Prime(p) && TellsApart(p, if key in instances then instances[key] else Fresh(0), payload)
      modifies this`instances, this`outbox, this`results, cp
      ensures var inst := if key in old(instances) then old(instances)[key] else Fresh(0);
              && (payload.Reveal? ==>
                    Lists(order, Candidates(inst.(polys := inst.polys[payload.sender := payload.poly]))))
              && var e := CastEffect(n, t, p, id, old(cp.fp), inst, payload, order);
                 && instances == old(instances)[key := e.inst]
                 && outbox == old(outbox) + e.sent
                 && results == old(results) + e.results
                 && cp.fp == old(cp.fp) + e.blamed
    {
      var inst := GetInstance(key, 0);
      inst, order := OnPayload(inst, payload);
      instances := instances[key := inst];
    }

    method OnPayload(inst: Instance, payload: Payload) returns (inst': Instance, ghost order: seq<int>)
      requires Prime(p) && TellsApart(p, inst, payload)
      modifies this`outbox, this`results, cp
      ensures payload.Reveal? ==> Lists(order, Candidates(inst.(polys := inst.polys[payload.sender := payload.poly])))
      ensures var e := CastEffect(n, t, p, id, old(cp.fp), inst, payload, order);
              && inst' == e.inst && outbox == old(outbox) + e.sent && results == old(results) + e.results
              && cp.fp == old(cp.fp) + e.blamed
    {
      order := [];
      match payload {
        case Equal(i, j) => inst' := OnEqualDelivered(inst, i, j);
        case MSet(m) => inst' := OnMSetDelivered(inst, m);
        case Reveal(sender, poly) => inst', order := OnRevealDelivered(inst, sender, poly);
        case Ready(sender) => inst' := OnReadyDelivered(inst, sender);
      }
    }

    method BeginReconstruction(inst: Instance) returns (ok: bool)
      modifies this`outbox
      ensures ok <==> StartReconstruction(id, inst).Some?
      ensures outbox == if ok then old(outbox) + StartReconstruction(id, inst).value else old(outbox)
      ensures ok <==> inst.completed && inst.mSet.Some?
      ensures outbox == old(outbox) + (if ok && id in inst.mSet.value
                                       then [Cast(Reveal(id, if inst.received.Some? then inst.received.value else []))]
                                       else [])
    {
      ok := inst.completed && inst.mSet.Some?;
      if !ok {
        return;
      }
      var inM := false;
      var a := 0;
      while a < |inst.mSet.value|
        invariant 0 <= a <= |inst.mSet.value| && !inM && outbox == old(outbox)
        invariant forall b :: 0 <= b < a ==> inst.mSet.value[b] != id
      {
        if inst.mSet.value[a] == id {
          inM := true;
          break;
        }
        a := a + 1;
      }
      if inM {
        outbox := outbox + [Cast(Reveal(id, if inst.received.Some? then inst.received.value else []))];
      }
    }
  }

  /** `out` deals node `k` its slice. */
  ghost predicate SharesSlice(p: int, c: seq<seq<int>>, k: int, out: Out)
    requires p > 0 && Rectangular(c, |c|)
  {
    out.Share? && out.to == k && SliceOf(p, c, k, out.poly)
  }

  /** The kept candidates as a set, and the pairs marked. */
  lemma KeptOf(p: int, polys: map<int, seq<int>>, order: seq<int>) returns (kept: set<int>, blamed: set<(int, int)>)
    requires p > 0 && Unique(order)
    ensures var s := Sift(p, polys, order, |order|);
            kept == Elems(s.valid) && |kept| == |s.valid| && blamed == s.blamed
    ensures Kept(p, polys, order, |order|, kept) && Marks(p, polys, order, |order|, kept, blamed)
  {
    var s := Sift(p, polys, order, |order|);
    SiftIs(p, polys, order);
    SiftKeeps(p, polys, order, |order|);
    UniqueCount(s.valid);
    kept, blamed := Elems(s.valid), s.blamed;
  }

  /** The candidates for interpolation differ modulo `p` once `payload` is in. */
  ghost predicate TellsApart(p: int, inst: Instance, payload: Payload)
    requires p > 0
  {
    payload.Reveal? ==> Apart(p, Candidates(inst.(polys := inst.polys[payload.sender := payload.poly])))
  }

  lemma KeptDistinct(p: int, inst: Instance, candidates: seq<int>)
    requires p > 0 && Apart(p, Candidates(inst)) && Lists(candidates, Candidates(inst))
    ensures var valid := Sift(p, inst.polys, candidates, |candidates|).valid; Unique(valid) && Distinct(p, valid)
  {
    SiftKeeps(p, inst.polys, candidates, |candidates|);
    assert candidates[..|candidates|] == candidates;
    ApartDistinct(p, Candidates(inst), Sift(p, inst.polys, candidates, |candidates|).valid);
  }

  lemma ListsMore(order: seq<int>, s: set<int>, x: int)
    requires Lists(order, s) && x !in s
    ensures Lists(order + [x], s + {x})
  {
    assert forall y :: y in s ==> y in order + [x];
    assert (order + [x])[|order|] == x;
  }

  lemma ConfirmNext(p: int, id: int, poly: seq<int>, early: map<int, int>, order: seq<int>, from: int, sent: seq<Out>)
    requires p > 0 && from in early && forall a :: 0 <= a < |order| ==> order[a] in early
    ensures sent + ConfirmAll(p, id, poly, early, order + [from], |order + [from]|) ==
            sent + ConfirmAll(p, id, poly, early, order, |order|) + Confirm(p, id, poly, from, early[from])
  {
    ConfirmPrefix(p, id, poly, early, order, order + [from], |order|);
  }

  lemma {:induction false} ConfirmPrefix(p: int, id: int, poly: seq<int>, early: map<int, int>,
                                         order: seq<int>, order': seq<int>, k: nat)
    requires p > 0 && order <= order' && k <= |order| && forall a :: 0 <= a < |order'| ==> order'[a] in early
    ensures ConfirmAll(p, id, poly, early, order, k) == ConfirmAll(p, id, poly, early, order', k)
  {
    if k > 0 {
      ConfirmPrefix(p, id, poly, early, order, order', k - 1);
    }
  }
}
