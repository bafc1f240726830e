/** What the two greedy passes of secret sharing choose, said without the passes. */
module IVSSChoice {
  import opened Quorums
  import opened Lagrange
  import opened Sharing
  import opened Certification
  import opened IVSS
  import opened IVSSNode

  // ------------------------------------------------------------- the member list

  /** Any two entries have confirmed each other and are not marked as a faulty pair. */
  ghost predicate Clean(equals: set<(int, int)>, fp: set<(int, int)>, m: seq<int>) {
    forall a, b :: 0 <= a < b < |m| ==>
      (m[a], m[b]) in equals && (m[b], m[a]) in equals && Ordered(m[a], m[b]) !in fp
  }

  /** `c` and `d` have not confirmed each other, or are marked. */
  ghost predicate Clash(equals: set<(int, int)>, fp: set<(int, int)>, c: int, d: int) {
    (c, d) !in equals || (d, c) !in equals || Ordered(c, d) in fp
  }

  ghost predicate Increasing(m: seq<int>, n: nat) {
    && (forall a :: 0 <= a < |m| ==> 1 <= m[a] <= n)
    && (forall a, b :: 0 <= a < b < |m| ==> m[a] < m[b])
  }

  /** Ids `1..n` in order, each taken unless it clashes with a smaller one that was taken. */
  ghost predicate Chosen(equals: set<(int, int)>, fp: set<(int, int)>, n: nat, m: seq<int>) {
    && Increasing(m, n) && Clean(equals, fp, m)
    && (forall c :: 1 <= c <= n && c !in m ==> exists d :: d in m && d < c && Clash(equals, fp, c, d))
  }

  lemma OrderedSwap(i: int, j: int)
    ensures Ordered(i, j) == Ordered(j, i)
  {
  }

  lemma {:induction false} GreedyChosen(equals: set<(int, int)>, fp: set<(int, int)>, k: nat)
    ensures Chosen(equals, fp, k, Greedy(equals, fp, k))
  {
    if k > 0 {
      var before, m := Greedy(equals, fp, k - 1), Greedy(equals, fp, k);
      GreedyChosen(equals, fp, k - 1);
      GreedyShape(equals, fp, k);
      CleanIsConfirmed(equals, fp, m);
      forall c | 1 <= c <= k && c !in m ensures exists d :: d in m && d < c && Clash(equals, fp, c, d) {
        if c < k {
          var d :| d in before && d < c && Clash(equals, fp, c, d);
          assert d in m;
        } else {
          var a :| 0 <= a < |before| && !Confirmed(equals, fp, k, before[a]);
          assert before[a] in m && Clash(equals, fp, k, before[a]);
        }
      }
    }
  }

  lemma CleanIsConfirmed(equals: set<(int, int)>, fp: set<(int, int)>, m: seq<int>)
    ensures PairsConfirmed(equals, fp, m) <==> Clean(equals, fp, m)
  {
  }

  lemma PairClean(equals: set<(int, int)>, fp: set<(int, int)>, m: seq<int>, c: int, d: int)
    requires Clean(equals, fp, m) && c in m && d in m && c != d
    ensures !Clash(equals, fp, c, d)
  {
    var a :| 0 <= a < |m| && m[a] == c;
    var b :| 0 <= b < |m| && m[b] == d;
    OrderedSwap(c, d);
  }

  lemma {:induction false} TakenToo(equals: set<(int, int)>, fp: set<(int, int)>, n: nat, m: seq<int>, m': seq<int>,
                                    c: nat)
    requires Chosen(equals, fp, n, m) && Chosen(equals, fp, n, m') && c in m
    ensures c in m'
    decreases c
  {
    if c !in m' {
      var d :| d in m' && d < c && Clash(equals, fp, c, d);
      TakenToo(equals, fp, n, m', m, d);
      PairClean(equals, fp, m, c, d);
    }
  }

  ghost predicate SameElems(m: seq<int>, m': seq<int>) {
    forall c :: c in m <==> c in m'
  }

  lemma {:induction false} SameMembers(m: seq<int>, m': seq<int>, n: nat)
    requires Increasing(m, n) && Increasing(m', n) && SameElems(m, m')
    ensures m == m'
    decreases |m|
  {
    SomeToo(m, m');
    SomeToo(m', m);
    if m != [] {
      SameLess(m, m', n);
      SameMembers(m[..|m| - 1], m'[..|m'| - 1], n);
      assert m == m[..|m| - 1] + [m[|m| - 1]] && m' == m'[..|m'| - 1] + [m'[|m'| - 1]];
    }
  }

  lemma SomeToo(m: seq<int>, m': seq<int>)
    requires SameElems(m, m')
    ensures m != [] ==> m' != []
  {
    if m != [] {
      var c := m[0];
      assert c in m && c in m';
    }
  }

  lemma SameLess(m: seq<int>, m': seq<int>, n: nat)
    requires Increasing(m, n) && Increasing(m', n) && SameElems(m, m') && m != [] && m' != []
    ensures m[|m| - 1] == m'[|m'| - 1] && SameElems(m[..|m| - 1], m'[..|m'| - 1])
  {
    LastIsLargest(m, m', n);
    LastIsLargest(m', m, n);
    var l, l' := m[..|m| - 1], m'[..|m'| - 1];
    forall c ensures c in l <==> c in l' {
      BeforeLast(m, n, c);
      BeforeLast(m', n, c);
    }
  }

  lemma LastIsLargest(m: seq<int>, m': seq<int>, n: nat)
    requires Increasing(m, n) && Increasing(m', n) && m != [] && m' != [] && SameElems(m, m')
    ensures m[|m| - 1] <= m'[|m'| - 1]
  {
    assert m[|m| - 1] in m';
  }

  lemma BeforeLast(m: seq<int>, n: nat, c: int)
    requires Increasing(m, n) && m != []
    ensures c in m[..|m| - 1] <==> c in m && c != m[|m| - 1]
  {
  }

  /** There is only one such list. */
  lemma ChosenOnce(equals: set<(int, int)>, fp: set<(int, int)>, n: nat, m: seq<int>, m': seq<int>)
    requires Chosen(equals, fp, n, m) && Chosen(equals, fp, n, m')
    ensures m == m'
  {
    forall c ensures c in m <==> c in m' {
      if c in m {
        TakenToo(equals, fp, n, m, m', c);
      }
      if c in m' {
        TakenToo(equals, fp, n, m', m, c);
      }
    }
    SameMembers(m, m', n);
  }

  /** An unfinished dealer with `n - t` chosen members casts exactly that list; nobody else casts any. */
  lemma OfferIs(n: nat, t: nat, id: int, fp: set<(int, int)>, inst: Instance, m: seq<int>)
    requires Chosen(inst.equals, fp, n, m)
    ensures Offer(n, t, id, fp, inst) ==
            if id == inst.dealer && !inst.completed && |m| >= n - t then [Cast(MSet(m))] else []
  {
    GreedyChosen(inst.equals, fp, n);
    ChosenOnce(inst.equals, fp, n, m, Greedy(inst.equals, fp, n));
  }

  // ------------------------------------------------------ the interpolation set

  /** The polynomials of `u` and `v` have different values where they should meet. */
  ghost predicate Differ(p: int, polys: map<int, seq<int>>, u: int, v: int)
    requires p > 0
  {
    Eval(Slice(polys, u), v) % p != Eval(Slice(polys, v), u) % p
  }

  /** The first `k` candidates in their order, each kept unless it differs from an earlier one that was kept. */
  ghost predicate Kept(p: int, polys: map<int, seq<int>>, order: seq<int>, k: nat, kept: set<int>)
    requires p > 0 && k <= |order|
  {
    && (forall x :: x in kept ==> x in order[..k])
    && (forall a :: 0 <= a < k ==> (order[a] in kept <==> Unopposed(p, polys, order, kept, a)))
  }

  ghost predicate Unopposed(p: int, polys: map<int, seq<int>>, order: seq<int>, kept: set<int>, a: int)
    requires p > 0 && 0 <= a < |order|
  {
    forall b :: 0 <= b < a && order[b] in kept ==> !Differ(p, polys, order[a], order[b])
  }

  /** `order[b]` is the first kept candidate that `order[a]` differs from. */
  ghost predicate FirstDiffers(p: int, polys: map<int, seq<int>>, order: seq<int>, kept: set<int>, a: int, b: int)
    requires p > 0
  {
    && 0 <= b < a < |order| && order[b] in kept && Differ(p, polys, order[a], order[b])
    && forall d :: 0 <= d < b && order[d] in kept ==> !Differ(p, polys, order[a], order[d])
  }

  /** A pair of a candidate and the first kept one it differs from. */
  ghost predicate Marked(p: int, polys: map<int, seq<int>>, order: seq<int>, k: nat, kept: set<int>, x: (int, int))
    requires p > 0
  {
    exists a, b :: a < k && FirstDiffers(p, polys, order, kept, a, b) && x == Ordered(order[a], order[b])
  }

  /** Exactly those pairs. */
  ghost predicate Marks(p: int, polys: map<int, seq<int>>, order: seq<int>, k: nat, kept: set<int>,
                        blamed: set<(int, int)>)
    requires p > 0
  {
    forall x :: x in blamed <==> Marked(p, polys, order, k, kept, x)
  }

  /** The kept candidates stand at these places of the order. */
  ghost predicate Places(order: seq<int>, k: nat, valid: seq<int>, at: seq<int>)
    requires k <= |order|
  {
    && |at| == |valid| && (forall a :: 0 <= a < |at| ==> 0 <= at[a] < k && order[at[a]] == valid[a])
    && (forall a, b :: 0 <= a < b < |at| ==> at[a] < at[b])
  }

  /** What is kept stands at one of the places. */
  lemma PlaceOf(order: seq<int>, k: nat, valid: seq<int>, at: seq<int>, i: int) returns (a: nat)
    requires k <= |order| && Unique(order) && Places(order, k, valid, at) && 0 <= i < k && order[i] in Elems(valid)
    ensures a < |valid| && at[a] == i && valid[a] == order[i]
  {
    a :| 0 <= a < |valid| && valid[a] == order[i];
    assert order[at[a]] == order[i];
  }

  ghost predicate FirstConflict(p: int, polys: map<int, seq<int>>, valid: seq<int>, c: int, a: nat, b: nat)
    requires p > 0
  {
    && a <= b < |valid| && !Consistent(p, polys, c, valid[b])
    && forall d :: a <= d < b ==> Consistent(p, polys, c, valid[d])
  }

  lemma {:induction false} ConflictIsFirst(p: int, polys: map<int, seq<int>>, valid: seq<int>, c: int, a: nat)
    returns (b: nat)
    requires p > 0 && a <= |valid| && Conflict(p, polys, valid, c, a).Some?
    ensures FirstConflict(p, polys, valid, c, a, b) && Conflict(p, polys, valid, c, a) == Some(valid[b])
    decreases |valid| - a
  {
    if Consistent(p, polys, c, valid[a]) {
      b := ConflictIsFirst(p, polys, valid, c, a + 1);
    } else {
      b := a;
    }
  }

  /** The next candidate: kept iff nothing kept differs from it. */
  lemma NextKept(p: int, polys: map<int, seq<int>>, order: seq<int>, k: nat, valid: seq<int>, at: seq<int>)
    requires p > 0 && k < |order| && Unique(order) && Places(order, k, valid, at)
    ensures Conflict(p, polys, valid, order[k], 0).None? <==> Unopposed(p, polys, order, Elems(valid), k)
  {
    if Conflict(p, polys, valid, order[k], 0).None? {
      forall b | 0 <= b < k && order[b] in Elems(valid) ensures !Differ(p, polys, order[k], order[b]) {
        var a := PlaceOf(order, k, valid, at, b);
        assert Consistent(p, polys, order[k], valid[a]);
      }
    } else {
      var b := ConflictIsFirst(p, polys, valid, order[k], 0);
      assert order[at[b]] in Elems(valid) && Differ(p, polys, order[k], order[at[b]]);
    }
  }

  /** A rejected candidate is marked with the first kept one it differs from. */
  lemma NextMarked(p: int, polys: map<int, seq<int>>, order: seq<int>, k: nat, valid: seq<int>, at: seq<int>)
    returns (b: nat)
    requires p > 0 && k < |order| && Unique(order) && Places(order, k, valid, at)
    requires Conflict(p, polys, valid, order[k], 0).Some?
    ensures FirstDiffers(p, polys, order, Elems(valid), k, b)
    ensures Conflict(p, polys, valid, order[k], 0) == Some(order[b])
  {
    var a := ConflictIsFirst(p, polys, valid, order[k], 0);
    b := at[a];
    forall d | 0 <= d < b && order[d] in Elems(valid) ensures !Differ(p, polys, order[k], order[d]) {
      var i := PlaceOf(order, k, valid, at, d);
      assert Consistent(p, polys, order[k], valid[i]);
    }
  }

  lemma NotYet(p: int, polys: map<int, seq<int>>, order: seq<int>, k: nat, kept: set<int>)
    requires p > 0 && k < |order| && Unique(order) && Kept(p, polys, order, k, kept)
    ensures order[k] !in kept
  {
    var c, before := order[k], order[..k];
    assert forall a :: 0 <= a < |before| ==> before[a] != c;
    assert c !in before;
  }

  /** Keeping the next candidate changes nothing for those before it. */
  lemma KeptMore(p: int, polys: map<int, seq<int>>, order: seq<int>, k: nat, kept: set<int>, kept': set<int>)
    requires p > 0 && k < |order| && Unique(order) && Kept(p, polys, order, k, kept)
    requires kept' == (if Unopposed(p, polys, order, kept, k) then kept + {order[k]} else kept)
    ensures Kept(p, polys, order, k + 1, kept')
    ensures forall a, b :: a < k ==>
              (FirstDiffers(p, polys, order, kept', a, b) <==> FirstDiffers(p, polys, order, kept, a, b))
  {
    NotYet(p, polys, order, k, kept);
    forall a | 0 <= a < k ensures order[a] in kept' <==> order[a] in kept {
      assert order[a] != order[k];
    }
    forall a | 0 <= a <= k
      ensures Unopposed(p, polys, order, kept', a) <==> Unopposed(p, polys, order, kept, a)
    {
    }
  }

  lemma OnlyFirst(p: int, polys: map<int, seq<int>>, order: seq<int>, kept: set<int>, a: int, b: int, b': int)
    requires p > 0 && FirstDiffers(p, polys, order, kept, a, b) && FirstDiffers(p, polys, order, kept, a, b')
    ensures b == b'
  {
  }

  lemma MarksMore(p: int, polys: map<int, seq<int>>, order: seq<int>, k: nat, kept: set<int>, kept': set<int>,
                  blamed: set<(int, int)>, b: int)
    requires p > 0 && k < |order| && Marks(p, polys, order, k, kept, blamed)
    requires forall a, b :: a < k ==>
               (FirstDiffers(p, polys, order, kept', a, b) <==> FirstDiffers(p, polys, order, kept, a, b))
    requires FirstDiffers(p, polys, order, kept', k, b)
    ensures Marks(p, polys, order, k + 1, kept', blamed + {Ordered(order[k], order[b])})
  {
    var all := blamed + {Ordered(order[k], order[b])};
    forall x ensures x in all <==> Marked(p, polys, order, k + 1, kept', x) {
      if x in blamed {
        assert Marked(p, polys, order, k, kept, x);
        var i, j :| i < k && FirstDiffers(p, polys, order, kept, i, j) && x == Ordered(order[i], order[j]);
        assert FirstDiffers(p, polys, order, kept', i, j);
      }
      if Marked(p, polys, order, k + 1, kept', x) {
        var i, j :| i < k + 1 && FirstDiffers(p, polys, order, kept', i, j) && x == Ordered(order[i], order[j]);
        if i == k {
          OnlyFirst(p, polys, order, kept', k, b, j);
        } else {
          assert Marked(p, polys, order, k, kept, x);
        }
      }
    }
  }

  lemma MarksSame(p: int, polys: map<int, seq<int>>, order: seq<int>, k: nat, kept: set<int>, kept': set<int>,
                  blamed: set<(int, int)>)
    requires p > 0 && k < |order| && Marks(p, polys, order, k, kept, blamed)
    requires forall a, b :: a < k ==>
               (FirstDiffers(p, polys, order, kept', a, b) <==> FirstDiffers(p, polys, order, kept, a, b))
    requires forall b :: !FirstDiffers(p, polys, order, kept', k, b)
    ensures Marks(p, polys, order, k + 1, kept', blamed)
  {
    forall x ensures x in blamed <==> Marked(p, polys, order, k + 1, kept', x) {
      if x in blamed {
        assert Marked(p, polys, order, k, kept, x);
        var i, j :| i < k && FirstDiffers(p, polys, order, kept, i, j) && x == Ordered(order[i], order[j]);
        assert FirstDiffers(p, polys, order, kept', i, j);
      }
      if Marked(p, polys, order, k + 1, kept', x) {
        var i, j :| i < k + 1 && FirstDiffers(p, polys, order, kept', i, j) && x == Ordered(order[i], order[j]);
        assert Marked(p, polys, order, k, kept, x);
      }
    }
  }

  lemma PlacesMore(order: seq<int>, k: nat, valid: seq<int>, at: seq<int>)
    requires k < |order| && Places(order, k, valid, at)
    ensures Places(order, k + 1, valid, at) && Places(order, k + 1, valid + [order[k]], at + [k])
  {
  }

  lemma ElemsMore(valid: seq<int>, x: int)
    ensures Elems(valid + [x]) == Elems(valid) + {x}
  {
  }

  /** After `k` candidates the pass has kept `valid` and marked `blamed`. */
  ghost predicate Sifts(p: int, polys: map<int, seq<int>>, order: seq<int>, k: nat, s: Sifted, at: seq<int>)
    requires p > 0 && k <= |order|
  {
    && Places(order, k, s.valid, at) && Kept(p, polys, order, k, Elems(s.valid))
    && Marks(p, polys, order, k, Elems(s.valid), s.blamed)
  }

  lemma TakesAt(p: int, polys: map<int, seq<int>>, order: seq<int>, k: nat, s: Sifted, at: seq<int>)
    requires p > 0 && k < |order| && Unique(order) && Sifts(p, polys, order, k, s, at)
    requires Conflict(p, polys, s.valid, order[k], 0).None?
    ensures Sifts(p, polys, order, k + 1, s.(valid := s.valid + [order[k]]), at + [k])
  {
    PlacesMore(order, k, s.valid, at);
    ElemsMore(s.valid, order[k]);
    NextKept(p, polys, order, k, s.valid, at);
    KeptMore(p, polys, order, k, Elems(s.valid), Elems(s.valid + [order[k]]));
    NoneDiffers(p, polys, order, k, Elems(s.valid));
    MarksSame(p, polys, order, k, Elems(s.valid), Elems(s.valid + [order[k]]), s.blamed);
  }

  lemma DropsAt(p: int, polys: map<int, seq<int>>, order: seq<int>, k: nat, s: Sifted, at: seq<int>, bad: int)
    requires p > 0 && k < |order| && Unique(order) && Sifts(p, polys, order, k, s, at)
    requires Conflict(p, polys, s.valid, order[k], 0) == Some(bad)
    ensures Sifts(p, polys, order, k + 1, s.(blamed := s.blamed + {Ordered(order[k], bad)}), at)
  {
    PlacesMore(order, k, s.valid, at);
    NextKept(p, polys, order, k, s.valid, at);
    KeptMore(p, polys, order, k, Elems(s.valid), Elems(s.valid));
    var b := NextMarked(p, polys, order, k, s.valid, at);
    MarksMore(p, polys, order, k, Elems(s.valid), Elems(s.valid), s.blamed, b);
  }

  ghost predicate Chooses(p: int, polys: map<int, seq<int>>, order: seq<int>, k: nat, s: Sifted)
    requires p > 0 && k <= |order|
  {
    exists at :: Sifts(p, polys, order, k, s, at)
  }

  lemma SiftTakes(p: int, polys: map<int, seq<int>>, order: seq<int>, k: nat, s: Sifted)
    requires p > 0 && k < |order| && Unique(order) && Chooses(p, polys, order, k, s)
    requires Conflict(p, polys, s.valid, order[k], 0).None?
    ensures Chooses(p, polys, order, k + 1, s.(valid := s.valid + [order[k]]))
  {
    var at :| Sifts(p, polys, order, k, s, at);
    TakesAt(p, polys, order, k, s, at);
  }

  lemma SiftDrops(p: int, polys: map<int, seq<int>>, order: seq<int>, k: nat, s: Sifted, bad: int)
    requires p > 0 && k < |order| && Unique(order) && Chooses(p, polys, order, k, s)
    requires Conflict(p, polys, s.valid, order[k], 0) == Some(bad)
    ensures Chooses(p, polys, order, k + 1, s.(blamed := s.blamed + {Ordered(order[k], bad)}))
  {
    var at :| Sifts(p, polys, order, k, s, at);
    DropsAt(p, polys, order, k, s, at, bad);
  }

  lemma SiftNext(p: int, polys: map<int, seq<int>>, order: seq<int>, k: nat)
    requires p > 0 && k < |order| && Unique(order) && Chooses(p, polys, order, k, Sift(p, polys, order, k))
    ensures Chooses(p, polys, order, k + 1, Sift(p, polys, order, k + 1))
  {
    var s := Sift(p, polys, order, k);
    var bad := Conflict(p, polys, s.valid, order[k], 0);
    if bad.None? {
      SiftTakes(p, polys, order, k, s);
    } else {
      SiftDrops(p, polys, order, k, s, bad.value);
    }
  }

  /** What the pass keeps and marks is what the order and the polynomials say. */
  lemma {:induction false} SiftChooses(p: int, polys: map<int, seq<int>>, order: seq<int>, k: nat)
    requires p > 0 && k <= |order| && Unique(order)
    ensures Chooses(p, polys, order, k, Sift(p, polys, order, k))
    decreases k
  {
    if k == 0 {
      NothingSifted(p, polys, order);
    } else {
      SiftChooses(p, polys, order, k - 1);
      SiftNext(p, polys, order, k - 1);
    }
  }

  lemma NothingSifted(p: int, polys: map<int, seq<int>>, order: seq<int>)
    requires p > 0
    ensures Chooses(p, polys, order, 0, Sifted([], {}))
  {
    assert Sifts(p, polys, order, 0, Sifted([], {}), []);
  }

  /** The kept set and the marked pairs, once all candidates were looked at. */
  lemma SiftIs(p: int, polys: map<int, seq<int>>, order: seq<int>)
    requires p > 0 && Unique(order)
    ensures var s := Sift(p, polys, order, |order|);
            Kept(p, polys, order, |order|, Elems(s.valid)) && Marks(p, polys, order, |order|, Elems(s.valid), s.blamed)
  {
    SiftChooses(p, polys, order, |order|);
    var at :| Sifts(p, polys, order, |order|, Sift(p, polys, order, |order|), at);
  }

  lemma {:induction false} KeptToo(p: int, polys: map<int, seq<int>>, order: seq<int>, k: nat, kept: set<int>,
                                   kept': set<int>, a: nat)
    requires p > 0 && k <= |order| && a < k && Kept(p, polys, order, k, kept) && Kept(p, polys, order, k, kept')
    ensures order[a] in kept <==> order[a] in kept'
    decreases a
  {
    forall b | 0 <= b < a ensures order[b] in kept <==> order[b] in kept' {
      KeptToo(p, polys, order, k, kept, kept', b);
    }
    assert Unopposed(p, polys, order, kept, a) <==> Unopposed(p, polys, order, kept', a);
  }

  /** There is only one such set. */
  lemma KeptOnce(p: int, polys: map<int, seq<int>>, order: seq<int>, k: nat, kept: set<int>, kept': set<int>)
    requires p > 0 && k <= |order| && Kept(p, polys, order, k, kept) && Kept(p, polys, order, k, kept')
    ensures kept == kept'
  {
    forall a | 0 <= a < k ensures order[a] in kept <==> order[a] in kept' {
      KeptToo(p, polys, order, k, kept, kept', a);
    }
    forall x ensures x in kept <==> x in kept' {
      if x in order[..k] {
        var a :| 0 <= a < k && order[..k][a] == x;
        assert order[a] == x;
      }
    }
  }

  lemma NoneDiffers(p: int, polys: map<int, seq<int>>, order: seq<int>, k: nat, kept: set<int>)
    requires p > 0 && k < |order| && Unique(order) && Unopposed(p, polys, order, kept, k)
    ensures forall b :: !FirstDiffers(p, polys, order, kept + {order[k]}, k, b)
  {
    forall b ensures !FirstDiffers(p, polys, order, kept + {order[k]}, k, b) {
      if 0 <= b < k {
        assert order[b] != order[k];
      }
    }
  }
}
