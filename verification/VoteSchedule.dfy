/** What one node does while it reads the INPUTs, then the VOTE1s and then the REVOTEs of quorums chosen for it. */
module VoteSchedule {
  import opened Quorums
  import opened Vote
  import opened VoteNode

  // ------------------------------------------------------- a node while it reads

  ghost function Only<V>(m: map<int, V>, s: set<int>): map<int, V> {
    map j | j in m && j in s :: m[j]
  }

  lemma OnlyMore<V>(m: map<int, V>, s: set<int>, x: int)
    requires x in m
    ensures Only(m, s)[x := m[x]] == Only(m, s + {x})
  {
  }

  /** A set that is all of a quorum or still inside it. */
  ghost predicate Filling(q: set<int>, s: set<int>) {
    s <= q || q <= s
  }

  /** While a quorum fills up, the threshold is reached with its last member and not before. */
  lemma FillsUp(q: set<int>, s: set<int>, x: int, k: nat)
    requires |q| == k && x !in s && Filling(q, s) && (q <= s || x in q)
    ensures !(q <= s) ==> (|s + {x}| >= k <==> q <= s + {x})
    ensures !(q <= s) && q <= s + {x} ==> s + {x} == q
    ensures Filling(q, s + {x})
  {
    if !(q <= s) {
      SubsetCount(s + {x}, q);
      if |s + {x}| >= k {
        FullSubset(s + {x}, q);
      }
      if q <= s + {x} {
        SubsetCount(q, s + {x});
      }
    }
  }

  /** A node after reading the INPUTs of `s`, with quorum `a`. */
  ghost function Reads1(inputs: map<int, int>, a: set<int>, s: set<int>): Round {
    Round(Only(inputs, s), map[], map[], a <= s, false, if a <= s then a else {}, {}, {}, None)
  }

  /** A node after reading all INPUTs and the VOTE1s of `s`, with quorum `b`. */
  ghost function Reads2(inputs: map<int, int>, v1: map<int, Ballot>, a: set<int>, b: set<int>, s: set<int>): Round {
    Round(inputs, Only(v1, s), map[], true, b <= s, a, if b <= s then b else {}, {}, None)
  }

  /** A node after reading all INPUTs and VOTE1s and the REVOTEs of `s`, with quorum `q`. */
  ghost function Reads3(inputs: map<int, int>, v1: map<int, Ballot>, rv: map<int, Ballot>,
                        a: set<int>, b: set<int>, q: set<int>, s: set<int>): Round {
    Round(inputs, v1, Only(rv, s), true, true, a, b,
          if q <= s then q else {}, if q <= s then Some(Decide(v1, rv, b, q)) else None)
  }

  lemma AllValid1(r: Round)
    requires forall j :: j in r.vote1 ==> r.vote1[j].members <= r.inputs.Keys
    ensures ValidVote1(r) == r.vote1.Keys
  {
    forall j ensures j in ValidVote1(r) <==> j in r.vote1.Keys {
    }
  }

  lemma AllValid2(r: Round)
    requires ValidVote1(r) == r.vote1.Keys && forall j :: j in r.revote ==> r.revote[j].members <= r.vote1.Keys
    ensures ValidRevote(r) == r.revote.Keys
  {
    forall j ensures j in ValidRevote(r) <==> j in r.revote.Keys {
    }
  }

  /** What reading `x` makes the node broadcast: its ballot when the quorum is full. */
  ghost function Fires(q: set<int>, s: set<int>, x: int, v: Ballot): Option<Ballot> {
    if !(q <= s) && q <= s + {x} then Some(v) else None
  }

  /** Without VOTE1s a pass ends after its first phase. */
  lemma OnlyPhase1(n: nat, t: nat, r: Round)
    requires n > t && r.vote1 == map[] && !r.sentRevote
    ensures Progress(n, t, r) == Progressed(Phase1(n, t, r).0, Phase1(n, t, r).1, None)
  {
    assert ValidVote1(Phase1(n, t, r).0) == {};
  }

  lemma Phase1Fires(n: nat, t: nat, inputs: map<int, int>, a: set<int>, s: set<int>, x: int, r: Round)
    requires n > t && |a| == n - t && s + {x} <= inputs.Keys && x !in s && Filling(a, s) && (a <= s || x in a)
    requires r == Reads1(inputs, a, s).(inputs := Only(inputs, s + {x}))
    ensures Phase1(n, t, r) == (Reads1(inputs, a, s + {x}), Fires(a, s, x, Ballot(a, Majority(inputs, a))))
  {
    assert r.inputs.Keys == s + {x};
    assert |r.inputs| == |r.inputs.Keys|;
    FillsUp(a, s, x, n - t);
    if !(a <= s) && a <= s + {x} {
      MajorityReads(r.inputs, inputs, a);
    }
  }

  lemma Read1(n: nat, t: nat, inputs: map<int, int>, a: set<int>, s: set<int>, x: int)
    requires n > t && |a| == n - t && s + {x} <= inputs.Keys && x !in s && Filling(a, s) && (a <= s || x in a)
    ensures OnDelivered(n, t, Reads1(inputs, a, s), x, Input(inputs[x]))
      == Progressed(Reads1(inputs, a, s + {x}), Fires(a, s, x, Ballot(a, Majority(inputs, a))), None)
  {
    var r := Record(Reads1(inputs, a, s), x, Input(inputs[x]));
    OnlyMore(inputs, s, x);
    Phase1Fires(n, t, inputs, a, s, x, r);
    OnlyPhase1(n, t, r);
  }

  /** Without REVOTEs a pass after VOTE1 is its second phase. */
  lemma OnlyPhase2(n: nat, t: nat, r: Round)
    requires n > t && r.revote == map[] && r.sentVote1
    ensures Progress(n, t, r) == Progressed(Phase2(n, t, r).0, None, Phase2(n, t, r).1)
  {
    assert ValidRevote(Phase2(n, t, r).0) == {};
  }

  /** Every ballot names only members of `ids`. */
  ghost predicate Within(votes: map<int, Ballot>, ids: set<int>) {
    forall j :: j in votes ==> votes[j].members <= ids
  }

  lemma Phase2Fires(n: nat, t: nat, inputs: map<int, int>, v1: map<int, Ballot>, a: set<int>, b: set<int>,
                    s: set<int>, x: int, r: Round)
    requires n > t && |b| == n - t && s + {x} <= v1.Keys && x !in s && Filling(b, s) && (b <= s || x in b)
    requires Within(v1, inputs.Keys) && r == Reads2(inputs, v1, a, b, s).(vote1 := Only(v1, s + {x}))
    ensures Phase2(n, t, r)
      == (Reads2(inputs, v1, a, b, s + {x}), Fires(b, s, x, Ballot(b, Majority(Bits(v1), b))))
  {
    assert r.vote1.Keys == s + {x};
    AllValid1(r);
    FillsUp(b, s, x, n - t);
    if !(b <= s) && b <= s + {x} {
      MajorityReads(Bits(r.vote1), Bits(v1), b);
    }
  }

  lemma Read2(n: nat, t: nat, inputs: map<int, int>, v1: map<int, Ballot>, a: set<int>, b: set<int>, s: set<int>,
              x: int)
    requires n > t && |b| == n - t && s + {x} <= v1.Keys && x !in s && Filling(b, s) && (b <= s || x in b)
    requires Within(v1, inputs.Keys)
    ensures OnDelivered(n, t, Reads2(inputs, v1, a, b, s), x, Vote1(v1[x]))
      == Progressed(Reads2(inputs, v1, a, b, s + {x}), None, Fires(b, s, x, Ballot(b, Majority(Bits(v1), b))))
  {
    var r := Record(Reads2(inputs, v1, a, b, s), x, Vote1(v1[x]));
    OnlyMore(v1, s, x);
    Phase2Fires(n, t, inputs, v1, a, b, s, x, r);
    OnlyPhase2(n, t, r);
  }

  lemma OnlyPhase3(n: nat, t: nat, r: Round)
    requires r.sentVote1 && r.sentRevote
    ensures Progress(n, t, r) == Progressed(Phase3(n, t, r), None, None)
  {
  }

  lemma Phase3At(n: nat, t: nat, r: Round, valid: set<int>, o: Outcome)
    requires r.sentRevote && ValidRevote(r) == valid && o == Decide(r.vote1, r.revote, r.myB, valid)
    ensures Phase3(n, t, r) == if |valid| >= n - t then r.(myC := valid, outcome := Some(o)) else r
  {
  }

  /** The REVOTEs read are enough to decide. */
  lemma DecideReads(v1: map<int, Ballot>, rv: map<int, Ballot>, b: set<int>, q: set<int>)
    requires q <= rv.Keys
    ensures Decide(v1, Only(rv, q), b, q) == Decide(v1, rv, b, q)
  {
    CommonExtends(Only(rv, q), rv, q);
  }

  lemma Phase3Fires(n: nat, t: nat, inputs: map<int, int>, v1: map<int, Ballot>, rv: map<int, Ballot>,
                    a: set<int>, b: set<int>, q: set<int>, s: set<int>, x: int, r: Round)
    requires n > t && |q| == n - t && q <= rv.Keys && s < q && x in q - s
    requires Within(v1, inputs.Keys) && Within(rv, v1.Keys)
    requires r == Reads3(inputs, v1, rv, a, b, q, s).(revote := Only(rv, s + {x}))
    ensures Phase3(n, t, r) == Reads3(inputs, v1, rv, a, b, q, s + {x})
  {
    assert r.revote.Keys == s + {x};
    AllValid1(r);
    AllValid2(r);
    FillsUp(q, s, x, n - t);
    DecideReads(v1, rv, b, q);
    Phase3At(n, t, r, s + {x}, Decide(r.vote1, r.revote, r.myB, s + {x}));
  }

  lemma Read3(n: nat, t: nat, inputs: map<int, int>, v1: map<int, Ballot>, rv: map<int, Ballot>,
              a: set<int>, b: set<int>, q: set<int>, s: set<int>, x: int)
    requires n > t && |q| == n - t && q <= rv.Keys && s < q && x in q - s
    requires Within(v1, inputs.Keys) && Within(rv, v1.Keys)
    ensures OnDelivered(n, t, Reads3(inputs, v1, rv, a, b, q, s), x, Revote(rv[x]))
      == Progressed(Reads3(inputs, v1, rv, a, b, q, s + {x}), None, None)
  {
    var r := Record(Reads3(inputs, v1, rv, a, b, q, s), x, Revote(rv[x]));
    OnlyMore(rv, s, x);
    Phase3Fires(n, t, inputs, v1, rv, a, b, q, s, x, r);
    OnlyPhase3(n, t, r);
  }
}
