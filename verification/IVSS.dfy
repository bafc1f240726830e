/** Verifiable secret sharing: what one node does with each message of one instance. */
module IVSS {
  import opened Quorums
  import opened Modular
  import opened Lagrange
  import opened Sharing
  import opened Certification

  /** What travels inside an A-Cast. */
  datatype Payload =
    | Equal(i: int, j: int)
    | MSet(members: seq<int>)
    | Reveal(sender: int, poly: seq<int>)
    | Ready(sender: int)

  datatype Out = Cast(payload: Payload) | Share(to: int, poly: seq<int>) | Point(to: int, value: int)

  datatype Result = SharingComplete(members: seq<int>, poly: Option<seq<int>>) | Reconstructed(secret: int)

  datatype Instance = Instance(
    dealer: int,
    received: Option<seq<int>>,
    early: map<int, int>,
    equals: set<(int, int)>,
    mSet: Option<seq<int>>,
    pending: Option<seq<int>>,
    completed: bool,
    polys: map<int, seq<int>>,
    ready: set<int>,
    reconstructed: bool,
    secret: Option<int>)

  function Fresh(dealer: int): Instance {
    Instance(dealer, None, map[], {}, None, None, false, map[], {}, false, None)
  }

  /** The new state of an instance, what was sent, what was handed to the caller and which pairs were marked. */
  datatype Effect = Effect(inst: Instance, sent: seq<Out>, results: seq<Result>, blamed: set<(int, int)>)

  // ------------------------------------------------------------ the candidate set

  predicate Confirmed(equals: set<(int, int)>, fp: set<(int, int)>, i: int, j: int) {
    (i, j) in equals && (j, i) in equals && !Faulty(fp, i, j)
  }

  predicate FitsAll(equals: set<(int, int)>, fp: set<(int, int)>, m: seq<int>, c: int) {
    forall a :: 0 <= a < |m| ==> Confirmed(equals, fp, c, m[a])
  }

  /** The greedy set after the candidates `1..k`. */
  function Greedy(equals: set<(int, int)>, fp: set<(int, int)>, k: nat): seq<int> {
    if k == 0 then []
    else
      var m := Greedy(equals, fp, k - 1);
      if FitsAll(equals, fp, m, k) then m + [k] else m
  }

  predicate PairsConfirmed(equals: set<(int, int)>, fp: set<(int, int)>, m: seq<int>) {
    forall a, b :: 0 <= a < b < |m| ==> Confirmed(equals, fp, m[a], m[b])
  }

  predicate Verified(n: nat, t: nat, equals: set<(int, int)>, fp: set<(int, int)>, m: seq<int>) {
    |m| >= n - t && PairsConfirmed(equals, fp, m)
  }

  /** The greedy set is increasing, so sorting it changes nothing, and its members confirm each other. */
  lemma {:induction false} GreedyShape(equals: set<(int, int)>, fp: set<(int, int)>, k: nat)
    ensures var m := Greedy(equals, fp, k);
            && (forall a :: 0 <= a < |m| ==> 1 <= m[a] <= k)
            && (forall a, b :: 0 <= a < b < |m| ==> m[a] < m[b])
            && PairsConfirmed(equals, fp, m)
  {
    if k > 0 {
      GreedyShape(equals, fp, k - 1);
    }
  }

  lemma {:induction false} GreedyPrefix(equals: set<(int, int)>, fp: set<(int, int)>, j: nat, k: nat)
    requires j <= k
    ensures Greedy(equals, fp, j) <= Greedy(equals, fp, k)
    decreases k
  {
    if j < k {
      GreedyPrefix(equals, fp, j, k - 1);
    }
  }

  lemma GreedyTakes(equals: set<(int, int)>, fp: set<(int, int)>, c: nat, n: nat)
    requires 1 <= c <= n && FitsAll(equals, fp, Greedy(equals, fp, c - 1), c)
    ensures c in Greedy(equals, fp, n)
  {
    var k := |Greedy(equals, fp, c - 1)|;
    GreedyPrefix(equals, fp, c, n);
    assert Greedy(equals, fp, c)[k] == c;
    assert Greedy(equals, fp, n)[k] == c;
  }

  /** A rejected candidate conflicts with a member. */
  lemma GreedyMaximal(equals: set<(int, int)>, fp: set<(int, int)>, n: nat, c: nat)
    requires 1 <= c <= n && c !in Greedy(equals, fp, n)
    ensures !FitsAll(equals, fp, Greedy(equals, fp, n), c)
  {
    var before, all := Greedy(equals, fp, c - 1), Greedy(equals, fp, n);
    if FitsAll(equals, fp, before, c) {
      GreedyTakes(equals, fp, c, n);
    }
    GreedyPrefix(equals, fp, c - 1, n);
    var a :| 0 <= a < |before| && !Confirmed(equals, fp, c, before[a]);
    assert all[a] == before[a];
  }

  /** Ids `1..m` that confirm each other are all taken. */
  lemma {:induction false} GreedyTakesClique(equals: set<(int, int)>, fp: set<(int, int)>, m: nat, n: nat)
    requires m <= n && forall i, j :: 1 <= j < i <= m ==> Confirmed(equals, fp, i, j)
    ensures |Greedy(equals, fp, m)| == m && forall c :: 1 <= c <= m ==> c in Greedy(equals, fp, n)
    decreases m
  {
    GreedyPrefix(equals, fp, m, n);
    if m > 0 {
      GreedyTakesClique(equals, fp, m - 1, n);
      GreedyShape(equals, fp, m - 1);
      var g := Greedy(equals, fp, m);
      assert g[|g| - 1] == m;
      assert Greedy(equals, fp, n)[m - 1] == m;
    }
  }

  /** What the builder offers, the verifier accepts. */
  lemma GreedyIsAccepted(n: nat, t: nat, equals: set<(int, int)>, fp: set<(int, int)>)
    requires |Greedy(equals, fp, n)| >= n - t
    ensures Verified(n, t, equals, fp, Greedy(equals, fp, n))
  {
    GreedyShape(equals, fp, n);
  }

  /** Acceptance survives further confirmations; a larger faulty set can only withdraw it. */
  lemma VerifiedMonotone(n: nat, t: nat, equals: set<(int, int)>, equals': set<(int, int)>,
                         fp: set<(int, int)>, fp': set<(int, int)>, m: seq<int>)
    requires equals <= equals' && fp' <= fp && Verified(n, t, equals, fp, m)
    ensures Verified(n, t, equals', fp', m)
  {
    forall a, b | 0 <= a < b < |m| ensures Confirmed(equals', fp', m[a], m[b]) {
      assert Confirmed(equals, fp, m[a], m[b]);
    }
  }

  // ------------------------------------------------------- the interpolation set

  /** The check made on two revealed polynomials. */
  predicate Consistent(p: int, polys: map<int, seq<int>>, u: int, v: int)
    requires p > 0
  {
    Eval(Slice(polys, u), v) % p == Eval(Slice(polys, v), u) % p
  }

  lemma ConsistentAgree(p: int, polys: map<int, seq<int>>, u: int, v: int)
    requires p > 0
    ensures Consistent(p, polys, u, v) <==> Agree(p, polys, u, v)
  {
    if Consistent(p, polys, u, v) {
      ResiduesCong(p, Eval(Slice(polys, u), v), Eval(Slice(polys, v), u));
    }
    if Agree(p, polys, u, v) {
      CongResidues(p, Eval(Slice(polys, u), v), Eval(Slice(polys, v), u));
    }
  }

  /** The first member of `valid` from position `a` on that contradicts candidate `c`. */
  function Conflict(p: int, polys: map<int, seq<int>>, valid: seq<int>, c: int, a: nat): (r: Option<int>)
    requires p > 0 && a <= |valid|
    ensures r.None? <==> forall b :: a <= b < |valid| ==> Consistent(p, polys, c, valid[b])
    ensures r.Some? ==> r.value in valid && !Consistent(p, polys, c, r.value)
    decreases |valid| - a
  {
    if a == |valid| then None
    else if !Consistent(p, polys, c, valid[a]) then Some(valid[a])
    else Conflict(p, polys, valid, c, a + 1)
  }

  /** What the greedy pass keeps of the first `k` candidates, and the pairs it marks as faulty. */
  datatype Sifted = Sifted(valid: seq<int>, blamed: set<(int, int)>)

  function Sift(p: int, polys: map<int, seq<int>>, candidates: seq<int>, k: nat): Sifted
    requires p > 0 && k <= |candidates|
  {
    if k == 0 then Sifted([], {})
    else
      var s := Sift(p, polys, candidates, k - 1);
      var c := candidates[k - 1];
      var bad := Conflict(p, polys, s.valid, c, 0);
      if bad.None? then s.(valid := s.valid + [c])
      else s.(blamed := s.blamed + {Ordered(c, bad.value)})
  }

  ghost predicate Unique(s: seq<int>) {
    forall a, b :: 0 <= a < b < |s| ==> s[a] != s[b]
  }

  ghost predicate AllConsistent(p: int, polys: map<int, seq<int>>, s: seq<int>)
    requires p > 0
  {
    forall a, b :: 0 <= a < |s| && 0 <= b < |s| ==> Consistent(p, polys, s[a], s[b])
  }

  /** The kept candidates are distinct. */
  lemma {:induction false} SiftKeeps(p: int, polys: map<int, seq<int>>, candidates: seq<int>, k: nat)
    requires p > 0 && k <= |candidates| && Unique(candidates)
    ensures var s := Sift(p, polys, candidates, k);
            (forall a :: 0 <= a < |s.valid| ==> s.valid[a] in candidates[..k]) && Unique(s.valid)
  {
    if k > 0 {
      SiftKeeps(p, polys, candidates, k - 1);
      var before := Sift(p, polys, candidates, k - 1).valid;
      var c := candidates[k - 1];
      assert candidates[..k] == candidates[..k - 1] + [c];
      forall a | 0 <= a < |before| ensures before[a] != c {
        assert before[a] in candidates[..k - 1];
      }
    }
  }

  lemma AddConsistent(p: int, polys: map<int, seq<int>>, s: seq<int>, c: int)
    requires p > 0 && AllConsistent(p, polys, s)
    requires forall b :: 0 <= b < |s| ==> Consistent(p, polys, c, s[b])
    ensures AllConsistent(p, polys, s + [c])
  {
    forall a, b | 0 <= a < |s + [c]| && 0 <= b < |s + [c]| ensures Consistent(p, polys, (s + [c])[a], (s + [c])[b]) {
      if a < |s| && b < |s| {
        assert Consistent(p, polys, s[a], s[b]);
      } else if a < |s| {
        assert Consistent(p, polys, c, s[a]);
      } else if b < |s| {
        assert Consistent(p, polys, c, s[b]);
      }
    }
  }

  /** The kept candidates are consistent with each other. */
  lemma {:induction false} SiftConsistent(p: int, polys: map<int, seq<int>>, candidates: seq<int>, k: nat)
    requires p > 0 && k <= |candidates|
    ensures AllConsistent(p, polys, Sift(p, polys, candidates, k).valid)
  {
    if k > 0 {
      SiftConsistent(p, polys, candidates, k - 1);
      var before := Sift(p, polys, candidates, k - 1).valid;
      var bad := Conflict(p, polys, before, candidates[k - 1], 0);
      if bad.None? {
        AddConsistent(p, polys, before, candidates[k - 1]);
      }
    }
  }

  ghost predicate Within(valid: seq<int>, candidates: seq<int>) {
    forall a :: 0 <= a < |valid| ==> valid[a] in candidates
  }

  lemma KeptWithin(p: int, polys: map<int, seq<int>>, candidates: seq<int>, k: nat)
    requires p > 0 && k <= |candidates| && Unique(candidates)
    ensures Within(Sift(p, polys, candidates, k).valid, candidates)
  {
    SiftKeeps(p, polys, candidates, k);
  }

  /** Two candidates whose polynomials contradict each other. */
  predicate Guilty(p: int, polys: map<int, seq<int>>, candidates: seq<int>, x: (int, int))
    requires p > 0
  {
    x.0 in candidates && x.1 in candidates && !Consistent(p, polys, x.0, x.1)
  }

  ghost predicate AllGuilty(p: int, polys: map<int, seq<int>>, candidates: seq<int>, blamed: set<(int, int)>)
    requires p > 0
  {
    forall x :: x in blamed ==> Guilty(p, polys, candidates, x)
  }

  lemma OneMoreGuilty(p: int, polys: map<int, seq<int>>, candidates: seq<int>, blamed: set<(int, int)>, x: (int, int))
    requires p > 0 && AllGuilty(p, polys, candidates, blamed) && Guilty(p, polys, candidates, x)
    ensures AllGuilty(p, polys, candidates, blamed + {x})
  {
  }

  /** A marked pair consists of two different candidates whose polynomials contradict each other. */
  lemma {:induction false} SiftBlames(p: int, polys: map<int, seq<int>>, candidates: seq<int>, k: nat)
    requires p > 0 && k <= |candidates| && Unique(candidates)
    ensures AllGuilty(p, polys, candidates, Sift(p, polys, candidates, k).blamed)
  {
    if k > 0 {
      SiftBlames(p, polys, candidates, k - 1);
      KeptWithin(p, polys, candidates, k - 1);
      var s, c := Sift(p, polys, candidates, k - 1), candidates[k - 1];
      var bad := Conflict(p, polys, s.valid, c, 0);
      if bad.Some? {
        ConflictBlames(p, polys, s.valid, c, candidates, bad.value);
        OneMoreGuilty(p, polys, candidates, s.blamed, Ordered(c, bad.value));
      }
    }
  }

  lemma ConflictBlames(p: int, polys: map<int, seq<int>>, valid: seq<int>, c: int, candidates: seq<int>, bad: int)
    requires p > 0 && Conflict(p, polys, valid, c, 0) == Some(bad) && c in candidates
    requires Within(valid, candidates)
    ensures Guilty(p, polys, candidates, Ordered(c, bad))
  {
  }

  /** `c` contradicts a kept candidate and the pair is marked. */
  predicate Rejected(p: int, polys: map<int, seq<int>>, s: Sifted, c: int)
    requires p > 0
  {
    exists b :: 0 <= b < |s.valid| && !Consistent(p, polys, c, s.valid[b]) && Ordered(c, s.valid[b]) in s.blamed
  }

  lemma RejectedStays(p: int, polys: map<int, seq<int>>, s: Sifted, s': Sifted, c: int)
    requires p > 0 && s.valid <= s'.valid && s.blamed <= s'.blamed && Rejected(p, polys, s, c)
    ensures Rejected(p, polys, s', c)
  {
    var b :| 0 <= b < |s.valid| && !Consistent(p, polys, c, s.valid[b]) && Ordered(c, s.valid[b]) in s.blamed;
    assert s'.valid[b] == s.valid[b];
  }

  /** A rejected candidate contradicts a kept one, and that pair is marked. */
  lemma {:induction false} SiftMaximal(p: int, polys: map<int, seq<int>>, candidates: seq<int>, k: nat, a: nat)
    requires p > 0 && a < k <= |candidates|
    ensures var s := Sift(p, polys, candidates, k); candidates[a] in s.valid || Rejected(p, polys, s, candidates[a])
    decreases k
  {
    var before, s := Sift(p, polys, candidates, k - 1), Sift(p, polys, candidates, k);
    assert before.valid <= s.valid && before.blamed <= s.blamed;
    if a < k - 1 {
      SiftMaximal(p, polys, candidates, k - 1, a);
      if candidates[a] !in before.valid {
        RejectedStays(p, polys, before, s, candidates[a]);
      }
    } else {
      var bad := Conflict(p, polys, before.valid, candidates[a], 0);
      if bad.None? {
        assert s.valid[|before.valid|] == candidates[a];
      } else {
        var b :| 0 <= b < |before.valid| && before.valid[b] == bad.value;
        assert s.valid[b] == bad.value;
      }
    }
  }
}
