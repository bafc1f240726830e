/** Steps of one node that reads its casts in a chosen order and finds nothing to complain about. */
module IVSSSchedule {
  import opened Quorums
  import opened Lagrange
  import opened Sharing
  import opened Bivariate
  import opened Commitment
  import opened IVSS
  import opened IVSSNode
  import opened IVSSRuns
  import opened IVSSScript

  // ------------------------------------------------------------------- the share

  function Holding(dealer: int, f: seq<int>): Instance {
    Fresh(dealer).(received := Some(f))
  }

  ghost function PointsOf(net: Net, k: int, f: seq<int>): set<(int, int, int)>
    requires net.p > 0
  {
    set j | j in net.cfg.ids :: (k, j, Eval(f, j) % net.p)
  }

  lemma PointsSent(net: Net, k: int, f: seq<int>)
    requires net.p > 0 && forall j :: j in net.cfg.ids ==> 1 <= j <= net.cfg.n
    ensures PointsOf(net, k, f) <= SentPoints(k, PointsTo(net.p, f, net.cfg.n))
  {
    forall j | j in net.cfg.ids ensures (k, j, Eval(f, j) % net.p) in SentPoints(k, PointsTo(net.p, f, net.cfg.n)) {
      PointsAllSent(net.p, f, net.cfg.n, j);
      assert Point(j, Eval(f, j) % net.p).Point?;
    }
  }

  ghost predicate MayHold(net: Net, dealing: Option<seq<seq<int>>>, k: int, f: seq<int>)
    requires net.p > 0
  {
    && |f| <= net.cfg.t + 1
    && (dealing.Some? ==> Rectangular(dealing.value, |dealing.value|) && SliceOf(net.p, dealing.value, k, f))
  }

  lemma DealStep(net: Net, s: Sys, k: int, dealer: int, f: seq<int>)
    requires net.p > 0 && MayHold(net, s.dealing, k, f) && forall j :: j in net.cfg.ids ==> 1 <= j <= net.cfg.n
    ensures Goes(net, s, k, Stage(Node(Fresh(dealer), []), {}, {}),
                 Stage(Node(Holding(dealer, f), []), {}, PointsOf(net, k, f)))
  {
    var e := Deal(k, dealer, f, []);
    var a := Stage(Node(Fresh(dealer), []), {}, {});
    var r := Does(net, a.node.inst, e);
    assert r.sent == PointsTo(net.p, f, net.cfg.n);
    PointsSent(net, k, f);
    GoesByEvent(net, s, e, r, a, Stage(Node(Holding(dealer, f), []), {}, PointsOf(net, k, f)));
  }

  // -------------------------------------------------------------- the confirmations

  ghost function Confirms(k: int, js: set<int>): set<Payload> {
    set j | j in js :: Equal(k, j)
  }

  /** Node `k` gets from `j` the value it expects. */
  ghost predicate Expects(net: Net, points: set<(int, int, int)>, k: int, f: seq<int>, j: int)
    requires net.p > 0
  {
    j in net.H() ==> (j, k, Eval(f, j) % net.p) in points
  }

  lemma SampleStep(net: Net, s: Sys, k: int, dealer: int, f: seq<int>, j: int, casts: set<Payload>,
                   points: set<(int, int, int)>)
    requires net.p > 0 && Expects(net, points, k, f, j)
    ensures Goes(net, s, k, Stage(Node(Holding(dealer, f), []), casts, points),
                 Stage(Node(Holding(dealer, f), []), casts + {Equal(k, j)}, points))
  {
    var e := Sampled(k, j, Eval(f, j) % net.p);
    var a := Stage(Node(Holding(dealer, f), []), casts, points);
    var r := Does(net, a.node.inst, e);
    assert r.sent == [Cast(Equal(k, j))];
    assert Cast(Equal(k, j)) in r.sent;
    GoesByEvent(net, s, e, r, a, Stage(Node(Holding(dealer, f), []), casts + {Equal(k, j)}, points));
  }

  lemma {:induction false} SampleAll(net: Net, s: Sys, k: int, dealer: int, f: seq<int>, js: set<int>,
                                     casts: set<Payload>, points: set<(int, int, int)>)
    requires net.p > 0 && forall j :: j in js ==> Expects(net, points, k, f, j)
    ensures Goes(net, s, k, Stage(Node(Holding(dealer, f), []), casts, points),
                 Stage(Node(Holding(dealer, f), []), casts + Confirms(k, js), points))
    decreases |js|
  {
    var a := Stage(Node(Holding(dealer, f), []), casts, points);
    if js == {} {
      assert casts + Confirms(k, js) == casts;
      GoesNowhere(net, s, k, a);
    } else {
      var j := Pick(js);
      var less := casts + Confirms(k, js - {j});
      SampleAll(net, s, k, dealer, f, js - {j}, casts, points);
      SampleStep(net, s, k, dealer, f, j, less, points);
      assert less + {Equal(k, j)} == casts + Confirms(k, js);
      GoesOn(net, s, k, a, Stage(a.node, less, points), Stage(a.node, casts + Confirms(k, js), points));
    }
  }

  // -------------------------------------------------------------- the agreed set

  function Knowing(dealer: int, f: seq<int>, equals: set<(int, int)>): Instance {
    Holding(dealer, f).(equals := equals)
  }

  lemma EqualStep(net: Net, s: Sys, k: int, dealer: int, f: seq<int>, equals: set<(int, int)>, x: (int, int),
                  casts: set<Payload>)
    requires net.p > 0 && Equal(x.0, x.1) in casts
    ensures Goes(net, s, k, Stage(Node(Knowing(dealer, f, equals), []), casts, {}),
                 Stage(Node(Knowing(dealer, f, equals + {x}), []), casts, {}))
  {
    var e := Deliver(k, Equal(x.0, x.1), []);
    var a := Stage(Node(Knowing(dealer, f, equals), []), casts, {});
    var r := Does(net, a.node.inst, e);
    GoesByEvent(net, s, e, r, a, Stage(Node(Knowing(dealer, f, equals + {x}), []), casts, {}));
  }

  lemma {:induction false} EqualAll(net: Net, s: Sys, k: int, dealer: int, f: seq<int>, equals: set<(int, int)>,
                                    casts: set<Payload>)
    requires net.p > 0 && forall x :: x in equals ==> Equal(x.0, x.1) in casts
    ensures Goes(net, s, k, Stage(Node(Holding(dealer, f), []), casts, {}),
                 Stage(Node(Knowing(dealer, f, equals), []), casts, {}))
    decreases |equals|
  {
    var a := Stage(Node(Holding(dealer, f), []), casts, {});
    if equals == {} {
      assert Knowing(dealer, f, equals) == Holding(dealer, f);
      GoesNowhere(net, s, k, a);
    } else {
      var x := Pick(equals);
      var less := equals - {x};
      EqualAll(net, s, k, dealer, f, less, casts);
      EqualStep(net, s, k, dealer, f, less, x, casts);
      assert less + {x} == equals;
      GoesOn(net, s, k, a, Stage(Node(Knowing(dealer, f, less), []), casts, {}),
             Stage(Node(Knowing(dealer, f, equals), []), casts, {}));
    }
  }

  ghost function Ended(dealer: int, f: seq<int>, equals: set<(int, int)>, m: seq<int>): Node {
    Node(Complete(Knowing(dealer, f, equals), m), [SharingComplete(m, Some(f))])
  }

  lemma MSetStep(net: Net, s: Sys, k: int, dealer: int, f: seq<int>, equals: set<(int, int)>, m: seq<int>,
                 casts: set<Payload>)
    requires net.p > 0 && MSet(m) in casts && Verified(net.cfg.n, net.cfg.t, equals, {}, m)
    ensures Goes(net, s, k, Stage(Node(Knowing(dealer, f, equals), []), casts, {}),
                 Stage(Ended(dealer, f, equals, m), casts, {}))
  {
    var e := Deliver(k, MSet(m), []);
    var a := Stage(Node(Knowing(dealer, f, equals), []), casts, {});
    var r := Does(net, a.node.inst, e);
    GoesByEvent(net, s, e, r, a, Stage(Ended(dealer, f, equals, m), casts, {}));
  }

  lemma BeginStep(net: Net, s: Sys, k: int, dealer: int, f: seq<int>, equals: set<(int, int)>, m: seq<int>,
                  casts: set<Payload>)
    requires net.p > 0 && k in m
    ensures Goes(net, s, k, Stage(Ended(dealer, f, equals, m), casts, {}),
                 Stage(Ended(dealer, f, equals, m), casts + {Reveal(k, f)}, {}))
  {
    var a := Stage(Ended(dealer, f, equals, m), casts, {});
    var r := Does(net, a.node.inst, Begin(k));
    assert r.sent == [Cast(Reveal(k, f))];
    assert Cast(Reveal(k, f)) in r.sent;
    GoesByEvent(net, s, Begin(k), r, a, Stage(Ended(dealer, f, equals, m), casts + {Reveal(k, f)}, {}));
  }

  // -------------------------------------------------------------- the reconstruction

  ghost function Part(polys: map<int, seq<int>>, s: set<int>): map<int, seq<int>>
    requires s <= polys.Keys
  {
    map i | i in s :: polys[i]
  }

  /** What the polynomials of `s` interpolate to. */
  ghost function ValueOf(p: int, polys: map<int, seq<int>>, s: set<int>): int
    requires p > 0
  {
    Interp(p, s, Zeros(s, polys)) % p
  }

  /** A node that has the polynomials of `s`. */
  ghost function Opened(net: Net, inst: Instance, polys: map<int, seq<int>>, s: set<int>): Instance
    requires net.p > 0 && s <= polys.Keys
  {
    inst.(polys := Part(polys, s),
          secret := if |s| >= net.cfg.n - 2 * net.cfg.t then Some(ValueOf(net.p, polys, s)) else None)
  }

  ghost function Opening(net: Net, k: int, casts: set<Payload>, s: set<int>): set<Payload> {
    if |s| >= net.cfg.n - 2 * net.cfg.t then casts + {Ready(k)} else casts
  }

  /** A set in some order. */
  lemma {:induction false} Listing(s: set<int>) returns (order: seq<int>)
    ensures Lists(order, s) && |order| == |s| && Elems(order) == s
    decreases |s|
  {
    if s == {} {
      order := [];
    } else {
      var x := Pick(s);
      var rest := Listing(s - {x});
      order := rest + [x];
      assert forall y :: y in s ==> y == x || y in rest;
      assert forall a :: 0 <= a < |rest| ==> rest[a] in s - {x};
    }
  }

  /** A pass over polynomials that agree keeps all and marks nothing. */
  lemma {:induction false} NothingToSift(p: int, polys: map<int, seq<int>>, order: seq<int>, k: nat)
    requires p > 0 && k <= |order| && AllConsistent(p, polys, order)
    ensures Sift(p, polys, order, k) == Sifted(order[..k], {})
  {
    if k > 0 {
      NothingToSift(p, polys, order, k - 1);
      NoConflict(p, polys, order, k);
      assert order[..k] == order[..k - 1] + [order[k - 1]];
    }
  }

  lemma NoConflict(p: int, polys: map<int, seq<int>>, order: seq<int>, k: nat)
    requires p > 0 && 0 < k <= |order| && AllConsistent(p, polys, order)
    ensures Conflict(p, polys, order[..k - 1], order[k - 1], 0).None?
  {
    var before := order[..k - 1];
    forall b | 0 <= b < |before| ensures Consistent(p, polys, order[k - 1], before[b]) {
      assert before[b] == order[b];
    }
  }

  lemma CliqueConsistent(p: int, polys: map<int, seq<int>>, s: set<int>, order: seq<int>)
    requires p > 0 && s <= polys.Keys && Clique(p, s, polys) && Lists(order, s)
    ensures AllConsistent(p, Part(polys, s), order)
  {
    forall a, b | 0 <= a < |order| && 0 <= b < |order| ensures Consistent(p, Part(polys, s), order[a], order[b]) {
      assert Agree(p, polys, order[a], order[b]);
      ConsistentAgree(p, polys, order[a], order[b]);
    }
  }

  lemma SameSecret(p: int, polys: map<int, seq<int>>, s: set<int>, order: seq<int>)
    requires p > 0 && s <= polys.Keys && Elems(order) == s
    ensures SecretOf(p, Part(polys, s), order) == ValueOf(p, polys, s)
  {
    assert Zeros(s, Part(polys, s)) == Zeros(s, polys);
  }

  /** What a node does when it keeps all of `order`. */
  lemma KeepsAll(n: nat, t: nat, p: int, k: int, inst: Instance, order: seq<int>)
    requires p > 0 && n > 2 * t && inst.mSet.Some? && Sift(p, inst.polys, order, |order|) == Sifted(order, {})
    ensures Interpolate(n, t, p, k, inst, order) ==
            if |order| < n - 2 * t then Effect(inst, [], [], {})
            else Effect(inst.(secret := Some(SecretOf(p, inst.polys, order))), [Cast(Ready(k))], [], {})
  {
  }

  lemma SiftsNothing(p: int, polys: map<int, seq<int>>, s: set<int>, order: seq<int>)
    requires p > 0 && s <= polys.Keys && Clique(p, s, polys) && Lists(order, s)
    ensures Sift(p, Part(polys, s), order, |order|) == Sifted(order, {})
  {
    CliqueConsistent(p, polys, s, order);
    NothingToSift(p, Part(polys, s), order, |order|);
    assert order[..|order|] == order;
  }

  /** A node whose reveals agree takes the value they interpolate to. */
  lemma InterpolateAgreeing(net: Net, k: int, inst: Instance, polys: map<int, seq<int>>, s: set<int>, order: seq<int>)
    requires net.p > 0 && net.cfg.n > 2 * net.cfg.t && s <= polys.Keys && inst.mSet.Some?
    requires Sift(net.p, Part(polys, s), order, |order|) == Sifted(order, {}) && |order| == |s| && Elems(order) == s
    requires inst.secret.Some? ==> |s| >= net.cfg.n - 2 * net.cfg.t
    requires inst.polys == Part(polys, s)
    ensures Interpolate(net.cfg.n, net.cfg.t, net.p, k, inst, order) ==
            Effect(Opened(net, inst, polys, s),
                   if |s| >= net.cfg.n - 2 * net.cfg.t then [Cast(Ready(k))] else [], [], {})
  {
    KeepsAll(net.cfg.n, net.cfg.t, net.p, k, inst, order);
    SameSecret(net.p, polys, s, order);
  }

  /** The polynomial of `i` arrives at a node that has those of `had`. */
  lemma RevealEffect(net: Net, k: int, inst: Instance, polys: map<int, seq<int>>, had: set<int>, i: int)
    returns (order: seq<int>)
    requires net.p > 0 && net.cfg.n > 2 * net.cfg.t && had + {i} <= polys.Keys && i !in had
    requires inst.mSet.Some? && had + {i} <= Elems(inst.mSet.value) && Clique(net.p, had + {i}, polys)
    ensures Lists(order, Candidates(Revealed(Opened(net, inst, polys, had), i, polys[i])))
    ensures OnReveal(net.cfg.n, net.cfg.t, net.p, k, Opened(net, inst, polys, had), i, polys[i], order) ==
            Effect(Opened(net, inst, polys, had + {i}),
                   if |had + {i}| >= net.cfg.n - 2 * net.cfg.t then [Cast(Ready(k))] else [], [], {})
  {
    var now := had + {i};
    order := Listing(now);
    var next := Revealed(Opened(net, inst, polys, had), i, polys[i]);
    assert next.polys == Part(polys, now);
    assert Candidates(next) == now;
    SiftsNothing(net.p, polys, now, order);
    InterpolateAgreeing(net, k, next, polys, now, order);
    assert Opened(net, next, polys, now) == Opened(net, inst, polys, now);
  }

  lemma RevealStep(net: Net, s: Sys, k: int, nd: Node, polys: map<int, seq<int>>, had: set<int>, i: int,
                   casts: set<Payload>)
    requires net.p > 0 && net.cfg.n > 2 * net.cfg.t && had + {i} <= polys.Keys && i !in had
    requires nd.inst.mSet.Some? && had + {i} <= Elems(nd.inst.mSet.value)
    requires Clique(net.p, had + {i}, polys) && Reveal(i, polys[i]) in casts
    ensures Goes(net, s, k, Stage(Node(Opened(net, nd.inst, polys, had), nd.results), Opening(net, k, casts, had), {}),
                 Stage(Node(Opened(net, nd.inst, polys, had + {i}), nd.results), Opening(net, k, casts, had + {i}), {}))
  {
    var inst, inst' := Opened(net, nd.inst, polys, had), Opened(net, nd.inst, polys, had + {i});
    var order := RevealEffect(net, k, nd.inst, polys, had, i);
    var sent := if |had + {i}| >= net.cfg.n - 2 * net.cfg.t then [Cast(Ready(k))] else [];
    OpeningCasts(net, k, casts, had, had + {i}, sent);
    TakesReveal(net, s, k, inst, inst', nd.results, i, polys[i], order, sent, Opening(net, k, casts, had),
                Opening(net, k, casts, had + {i}));
  }

  lemma OpeningCasts(net: Net, k: int, casts: set<Payload>, had: set<int>, now: set<int>, sent: seq<Out>)
    requires sent == if |now| >= net.cfg.n - 2 * net.cfg.t then [Cast(Ready(k))] else []
    requires had <= now
    ensures Opening(net, k, casts, now) <= Opening(net, k, casts, had) + Casts(sent)
    ensures casts <= Opening(net, k, casts, had)
  {
    if |now| >= net.cfg.n - 2 * net.cfg.t {
      assert Cast(Ready(k)) in sent;
    }
  }

  lemma TakesReveal(net: Net, s: Sys, k: int, inst: Instance, inst': Instance, results: seq<Result>, i: int,
                    f: seq<int>, order: seq<int>, sent: seq<Out>, casts: set<Payload>, casts': set<Payload>)
    requires net.p > 0 && Reveal(i, f) in casts && Lists(order, Candidates(Revealed(inst, i, f)))
    requires OnReveal(net.cfg.n, net.cfg.t, net.p, k, inst, i, f, order) == Effect(inst', sent, [], {})
    requires casts' <= casts + Casts(sent)
    ensures Goes(net, s, k, Stage(Node(inst, results), casts, {}), Stage(Node(inst', results), casts', {}))
  {
    GoesByEvent(net, s, Deliver(k, Reveal(i, f), order), Effect(inst', sent, [], {}),
                Stage(Node(inst, results), casts, {}), Stage(Node(inst', results), casts', {}));
  }

  lemma {:induction false} RevealAll(net: Net, s: Sys, k: int, nd: Node, polys: map<int, seq<int>>, read: set<int>,
                                     casts: set<Payload>)
    requires net.p > 0 && net.cfg.n > 2 * net.cfg.t && read <= polys.Keys
    requires nd.inst.mSet.Some? && read <= Elems(nd.inst.mSet.value) && nd.inst.polys == map[] && nd.inst.secret.None?
    requires Clique(net.p, read, polys) && forall i :: i in read ==> Reveal(i, polys[i]) in casts
    ensures Goes(net, s, k, Stage(nd, casts, {}),
                 Stage(Node(Opened(net, nd.inst, polys, read), nd.results), Opening(net, k, casts, read), {}))
    decreases |read|
  {
    var a := Stage(nd, casts, {});
    if read == {} {
      assert Part(polys, read) == map[];
      GoesNowhere(net, s, k, a);
    } else {
      var i := Pick(read);
      var had := read - {i};
      assert had + {i} == read;
      RevealAll(net, s, k, nd, polys, had, casts);
      RevealStep(net, s, k, nd, polys, had, i, casts);
      GoesOn(net, s, k, a, Stage(Node(Opened(net, nd.inst, polys, had), nd.results), Opening(net, k, casts, had), {}),
             Stage(Node(Opened(net, nd.inst, polys, read), nd.results), Opening(net, k, casts, read), {}));
    }
  }

  // ------------------------------------------------------------------- the output

  /** A node with the secret `v` that has heard READY from `heard`. */
  ghost function Heard(net: Net, nd: Node, v: int, heard: set<int>): Node {
    if |heard| < net.cfg.n - net.cfg.t then Node(nd.inst.(ready := heard), nd.results)
    else Node(nd.inst.(ready := heard, reconstructed := true), nd.results + [Reconstructed(v)])
  }

  lemma ReadyStep(net: Net, s: Sys, k: int, nd: Node, v: int, heard: set<int>, i: int, casts: set<Payload>)
    requires net.p > 0 && |heard| < net.cfg.n - net.cfg.t && i !in heard && Ready(i) in casts
    requires nd.inst.secret == Some(v) && !nd.inst.reconstructed
    ensures Goes(net, s, k, Stage(Heard(net, nd, v, heard), casts, {}),
                 Stage(Heard(net, nd, v, heard + {i}), casts, {}))
  {
    var a, b := Stage(Heard(net, nd, v, heard), casts, {}), Stage(Heard(net, nd, v, heard + {i}), casts, {});
    var e := Deliver(k, Ready(i), []);
    var r := Does(net, a.node.inst, e);
    GoesByEvent(net, s, e, r, a, b);
  }

  lemma {:induction false} ReadyAll(net: Net, s: Sys, k: int, nd: Node, v: int, heard: set<int>, casts: set<Payload>)
    requires net.p > 0 && |heard| <= net.cfg.n - net.cfg.t && net.cfg.n > net.cfg.t
    requires nd.inst.secret == Some(v) && !nd.inst.reconstructed && nd.inst.ready == {}
    requires forall i :: i in heard ==> Ready(i) in casts
    ensures Goes(net, s, k, Stage(nd, casts, {}), Stage(Heard(net, nd, v, heard), casts, {}))
    decreases |heard|
  {
    var a := Stage(nd, casts, {});
    if heard == {} {
      assert Heard(net, nd, v, heard) == nd;
      GoesNowhere(net, s, k, a);
    } else {
      var i := Pick(heard);
      var less := heard - {i};
      assert less + {i} == heard;
      ReadyAll(net, s, k, nd, v, less, casts);
      ReadyStep(net, s, k, nd, v, less, i, casts);
      GoesOn(net, s, k, a, Stage(Heard(net, nd, v, less), casts, {}), Stage(Heard(net, nd, v, heard), casts, {}));
    }
  }
}
