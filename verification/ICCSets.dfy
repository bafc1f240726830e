/**
 The sets of the coin over every run of coin and sharing together: what T, A and S of a node are, what it casts, when
 it moves on and which coin it takes.
 */
module ICCSets {
  import opened Quorums
  import C = ICC
  import R = ICCRuns
  import opened ICCJoint

  // ------------------------------------------------------------------------ one node

  /**
   T holds at least `n - t` dealers whose `n` secrets are shared, A at least `n - t` senders whose T lies within that,
   and S at least `n - t` senders whose A lies within that.
   */
  ghost predicate Formed(n: nat, t: nat, icc: C.Icc) {
    && (icc.myT.Some? ==>
          && |icc.myT.value| >= n - t
          && forall d :: d in icc.myT.value ==> d in icc.completed && |icc.completed[d]| >= n)
    && (icc.myA.Some? ==>
          && icc.myT.Some? && |icc.myA.value| >= n - t
          && forall j :: j in icc.myA.value ==> j in icc.attached && icc.attached[j] <= icc.myT.value)
    && (icc.myS.Some? ==>
          && icc.myA.Some? && |icc.myS.value| >= n - t
          && forall j :: j in icc.myS.value ==> j in icc.accepted && icc.accepted[j] <= icc.myA.value)
  }

  /** No step waits for something that is there: fewer than `n - t` would qualify. */
  ghost predicate Served(n: nat, t: nat, icc: C.Icc) {
    && (icc.myT.None? ==> |set d | d in icc.completed && |icc.completed[d]| == n| < n - t)
    && (icc.myT.Some? && icc.myA.None? ==>
          |set j | j in icc.attached && icc.attached[j] <= icc.myT.value| < n - t)
    && (icc.myA.Some? && icc.myS.None? ==>
          |set j | j in icc.accepted && icc.accepted[j] <= icc.myA.value| < n - t)
  }

  ghost predicate NodeOk(n: nat, t: nat, u: int, icc: C.Icc)
    requires u > 0
  {
    Formed(n, t, icc) && Served(n, t, icc) && C.Decides(u, icc, icc.coin)
  }

  lemma TFormed(n: nat, t: nat, icc: C.Icc)
    requires Formed(n, t, icc)
    ensures Formed(n, t, C.StepT(n, t, icc))
    ensures C.StepT(n, t, icc).myT.None? ==> |set d | d in icc.completed && |icc.completed[d]| == n| < n - t
  {
    assert C.FullDealers(n, icc.completed) == set d | d in icc.completed && |icc.completed[d]| == n;
  }

  lemma AFormed(n: nat, t: nat, icc: C.Icc)
    requires Formed(n, t, icc)
    ensures Formed(n, t, C.StepA(n, t, icc))
    ensures icc.myT.Some? && C.StepA(n, t, icc).myA.None? ==>
              |set j | j in icc.attached && icc.attached[j] <= icc.myT.value| < n - t
  {
    if icc.myT.Some? {
      assert C.Within(icc.attached, icc.myT.value)
          == set j | j in icc.attached && icc.attached[j] <= icc.myT.value;
    }
  }

  lemma SFormed(n: nat, t: nat, icc: C.Icc)
    requires Formed(n, t, icc)
    ensures Formed(n, t, C.StepS(n, t, icc))
    ensures icc.myA.Some? && C.StepS(n, t, icc).myS.None? ==>
              |set j | j in icc.accepted && icc.accepted[j] <= icc.myA.value| < n - t
  {
    if icc.myA.Some? {
      assert C.Within(icc.accepted, icc.myA.value)
          == set j | j in icc.accepted && icc.accepted[j] <= icc.myA.value;
    }
  }

  /** One pass forms every set that can be formed. */
  lemma SetsFormed(n: nat, t: nat, icc: C.Icc)
    requires Formed(n, t, icc)
    ensures var icc' := C.StepS(n, t, C.StepA(n, t, C.StepT(n, t, icc))); Formed(n, t, icc') && Served(n, t, icc')
  {
    var a := C.StepT(n, t, icc);
    TFormed(n, t, icc);
    var b := C.StepA(n, t, a);
    AFormed(n, t, a);
    SFormed(n, t, b);
  }

  lemma CoinOnly(n: nat, t: nat, u: int, icc: C.Icc, icc': C.Icc)
    requires u > 0 && icc' == icc.(coin := icc'.coin) && Formed(n, t, icc) && Served(n, t, icc)
    requires C.Decides(u, icc, icc'.coin)
    ensures NodeOk(n, t, u, icc')
  {
    forall f ensures C.Fits(icc', f) <==> C.Fits(icc, f) {
    }
    if icc'.coin.Some? {
      var a :| C.FirstFit(icc, a) && icc'.coin.value ==
        if exists j :: j in icc.finals[a].h && j in icc.attached && C.AddsToZero(u, icc.values, icc.attached[j], j)
        then 0 else 1;
      assert C.FirstFit(icc', a);
    }
  }

  lemma PassOk(n: nat, t: nat, u: int, icc: C.Icc)
    requires u > 0 && Formed(n, t, icc) && icc.coin.None?
    ensures NodeOk(n, t, u, C.Progress(n, t, u, icc))
  {
    var a := C.StepS(n, t, C.StepA(n, t, C.StepT(n, t, icc)));
    SetsFormed(n, t, icc);
    C.DecisionFrom(u, a, 0);
    CoinOnly(n, t, u, a, C.StepCoin(u, a));
  }

  /** What a set was formed from is still there after one more event. */
  lemma RecordFormed(n: nat, t: nat, icc: C.Icc, e: C.Event)
    requires Formed(n, t, icc)
    requires e.GotAttach? && e.from in icc.attached ==> icc.attached[e.from] == e.t
    requires e.GotAccept? && e.from in icc.accepted ==> icc.accepted[e.from] == e.a
    ensures Formed(n, t, C.Record(icc, e))
  {
    if e.Shared? {
      SubsetCount(C.SecretsOf(icc.completed, e.dealer), C.SecretsOf(icc.completed, e.dealer) + {e.index});
    }
  }

  // ------------------------------------------------------------------------ the board

  /** Node `i` has cast exactly the sets it has fixed. */
  ghost predicate Posted(s: R.Sys, i: int, icc: C.Icc) {
    && (i in s.attach <==> icc.myT.Some?) && (i in s.attach ==> s.attach[i] == icc.myT.value)
    && (i in s.accept <==> icc.myA.Some?) && (i in s.accept ==> s.accept[i] == icc.myA.value)
    && (i in s.final <==> icc.myS.Some?)
    && (i in s.final ==> icc.myA.Some? && s.final[i] == C.Final(icc.myA.value, icc.myS.value))
  }

  /** What a node has received was cast. */
  ghost predicate Received(s: R.Sys, icc: C.Icc) {
    && (forall j :: j in icc.attached ==> j in s.attach && s.attach[j] == icc.attached[j])
    && (forall j :: j in icc.accepted ==> j in s.accept && s.accept[j] == icc.accepted[j])
    && (forall a :: 0 <= a < |icc.finals| ==> WasCast(s.final, icc.finals[a]))
  }

  ghost predicate WasCast(final: map<int, C.Final>, f: C.Final) {
    exists j :: j in final && final[j] == f
  }

  ghost predicate Grows(s: R.Sys, s': R.Sys) {
    && (forall j :: j in s.attach ==> j in s'.attach && s'.attach[j] == s.attach[j])
    && (forall j :: j in s.accept ==> j in s'.accept && s'.accept[j] == s.accept[j])
    && (forall j :: j in s.final ==> j in s'.final && s'.final[j] == s.final[j])
  }

  lemma ReceivedGrows(s: R.Sys, s': R.Sys, icc: C.Icc)
    requires Received(s, icc) && Grows(s, s')
    ensures Received(s', icc)
  {
    forall a | 0 <= a < |icc.finals| ensures WasCast(s'.final, icc.finals[a]) {
      assert WasCast(s.final, icc.finals[a]);
      var j :| j in s.final && s.final[j] == icc.finals[a];
      assert j in s'.final;
    }
  }

  ghost predicate AllOk(n: nat, t: nat, u: int, s: R.Sys)
    requires u > 0
  {
    forall i :: i in s.nodes ==> NodeOk(n, t, u, s.nodes[i]) && Posted(s, i, s.nodes[i]) && Received(s, s.nodes[i])
  }

  /** A pass fixes each set at most once. */
  lemma PassFixes(n: nat, t: nat, u: int, icc: C.Icc)
    requires u > 0 && (icc.myS.Some? ==> icc.myA.Some?)
    ensures var icc' := C.Progress(n, t, u, icc);
            && (icc.myT.Some? ==> icc'.myT == icc.myT) && (icc.myA.Some? ==> icc'.myA == icc.myA)
            && (icc.myS.Some? ==> icc'.myS == icc.myS) && (icc'.myS.Some? ==> icc'.myA.Some?)
            && icc'.attached == icc.attached && icc'.accepted == icc.accepted && icc'.finals == icc.finals
  {
  }

  /** The moving node casts what it has just fixed, and nothing it has cast before. */
  lemma MoverPosts(s: R.Sys, i: int, icc: C.Icc, icc': C.Icc)
    requires Posted(s, i, icc)
    requires icc.myT.Some? ==> icc'.myT == icc.myT
    requires icc.myA.Some? ==> icc'.myA == icc.myA
    requires icc.myS.Some? ==> icc'.myS == icc.myS
    requires icc'.myS.Some? ==> icc'.myA.Some?
    ensures var s' := R.Moved(s, i, icc, icc'); Posted(s', i, icc') && Grows(s, s')
  {
  }

  lemma MoverReceives(c: Setup, st: State, i: int, e: C.Event)
    requires c.u > 0 && CoinEnabled(c, st, i, e) && Received(st.coin, st.coin.nodes[i])
    ensures Received(st.coin, C.Record(st.coin.nodes[i], e))
  {
    var icc := st.coin.nodes[i];
    if e.GotFinal? {
      assert WasCast(st.coin.final, e.f);
    }
  }

  lemma MoverOk(c: Setup, st: State, i: int, e: C.Event, icc': C.Icc)
    requires c.net.p > 0 && c.u > 0 && CoinEnabled(c, st, i, e)
    requires NodeOk(c.net.cfg.n, c.net.cfg.t, c.u, st.coin.nodes[i]) && Received(st.coin, st.coin.nodes[i])
    requires icc' == C.Handle(c.net.cfg.n, c.net.cfg.t, c.u, st.coin.nodes[i], e)
    ensures NodeOk(c.net.cfg.n, c.net.cfg.t, c.u, icc') && Received(st.coin, icc')
  {
    var icc := st.coin.nodes[i];
    if icc.coin.None? {
      var r := C.Record(icc, e);
      RecordFormed(c.net.cfg.n, c.net.cfg.t, icc, e);
      MoverReceives(c, st, i, e);
      PassOk(c.net.cfg.n, c.net.cfg.t, c.u, r);
      PassFixes(c.net.cfg.n, c.net.cfg.t, c.u, r);
      SameTables(st.coin, r, icc');
    }
  }

  lemma SameTables(s: R.Sys, icc: C.Icc, icc': C.Icc)
    requires Received(s, icc)
    requires icc'.attached == icc.attached && icc'.accepted == icc.accepted && icc'.finals == icc.finals
    ensures Received(s, icc')
  {
  }

  lemma HandlePosts(n: nat, t: nat, u: int, s: R.Sys, i: int, icc: C.Icc, e: C.Event)
    requires u > 0 && Formed(n, t, icc) && Posted(s, i, icc)
    ensures var icc' := C.Handle(n, t, u, icc, e);
            var s' := R.Moved(s, i, icc, icc'); Posted(s', i, icc') && Grows(s, s')
  {
    if icc.coin.None? {
      PassFixes(n, t, u, C.Record(icc, e));
    }
    MoverPosts(s, i, icc, C.Handle(n, t, u, icc, e));
  }

  lemma CoinMoveOk(c: Setup, st: State, i: int, e: C.Event)
    requires c.net.p > 0 && c.u > 0 && CoinEnabled(c, st, i, e) && AllOk(c.net.cfg.n, c.net.cfg.t, c.u, st.coin)
    ensures AllOk(c.net.cfg.n, c.net.cfg.t, c.u, Next(c, st, Coin(i, e)).coin)
  {
    var icc := C.Handle(c.net.cfg.n, c.net.cfg.t, c.u, st.coin.nodes[i], e);
    MoverOk(c, st, i, e, icc);
    HandlePosts(c.net.cfg.n, c.net.cfg.t, c.u, st.coin, i, st.coin.nodes[i], e);
    OthersOk(c.net.cfg.n, c.net.cfg.t, c.u, st.coin, i, icc);
  }

  lemma OthersOk(n: nat, t: nat, u: int, s: R.Sys, i: int, icc: C.Icc)
    requires u > 0 && AllOk(n, t, u, s) && i in s.nodes && NodeOk(n, t, u, icc) && Received(s, icc)
    requires var s' := R.Moved(s, i, s.nodes[i], icc); Posted(s', i, icc) && Grows(s, s')
    ensures AllOk(n, t, u, R.Moved(s, i, s.nodes[i], icc))
  {
    var s' := R.Moved(s, i, s.nodes[i], icc);
    forall k | k in s'.nodes
      ensures NodeOk(n, t, u, s'.nodes[k]) && Posted(s', k, s'.nodes[k]) && Received(s', s'.nodes[k])
    {
      ReceivedGrows(s, s', s'.nodes[k]);
    }
  }

  lemma ByzCastOk(n: nat, t: nat, u: int, s: R.Sys, j: int, x: C.Cast)
    requires u > 0 && AllOk(n, t, u, s) && j !in s.nodes && Uncast(s, j, x)
    ensures AllOk(n, t, u, Recast(s, j, x))
  {
    var s' := Recast(s, j, x);
    forall k | k in s'.nodes ensures Posted(s', k, s'.nodes[k]) && Received(s', s'.nodes[k]) {
      ReceivedGrows(s, s', s'.nodes[k]);
    }
  }

  lemma MoveOk(c: Setup, st: State, m: Move)
    requires c.Valid() && CanMove(c, st, m)
    requires st.coin.nodes.Keys == c.net.H() && AllOk(c.net.cfg.n, c.net.cfg.t, c.u, st.coin)
    ensures Next(c, st, m).coin.nodes.Keys == c.net.H() && AllOk(c.net.cfg.n, c.net.cfg.t, c.u, Next(c, st, m).coin)
  {
    match m
    case Sharing(key, e) =>
    case Coin(i, e) => CoinMoveOk(c, st, i, e);
    case ByzCast(j, x) => ByzCastOk(c.net.cfg.n, c.net.cfg.t, c.u, st.coin, j, x);
  }

  lemma {:induction false} RunOk(c: Setup, st: State, moves: seq<Move>, st': State)
    requires c.Valid() && JointRun(c, st, moves, st')
    requires st.coin.nodes.Keys == c.net.H() && AllOk(c.net.cfg.n, c.net.cfg.t, c.u, st.coin)
    ensures st'.coin.nodes.Keys == c.net.H() && AllOk(c.net.cfg.n, c.net.cfg.t, c.u, st'.coin)
    decreases |moves|
  {
    if moves != [] {
      MoveOk(c, st, moves[0]);
      RunOk(c, Next(c, st, moves[0]), moves[1..], st');
    }
  }

  /**
   In every run of coin and sharing together, whatever faulty nodes cast: the sets of a code-following node are formed
   as they should be and cast as they are, none is left unformed that could be formed, what it works with was cast,
   and its coin is that of the first proposed pair that fits.
   */
  lemma SetsOverRuns(c: Setup, st0: State, moves: seq<Move>, st: State, i: int)
    requires c.Valid() && JointInit(c, st0) && JointRun(c, st0, moves, st) && i in c.net.H()
    ensures i in st.coin.nodes
    ensures Formed(c.net.cfg.n, c.net.cfg.t, st.coin.nodes[i]) && Served(c.net.cfg.n, c.net.cfg.t, st.coin.nodes[i])
    ensures C.Decides(c.u, st.coin.nodes[i], st.coin.nodes[i].coin)
    ensures Posted(st.coin, i, st.coin.nodes[i]) && Received(st.coin, st.coin.nodes[i])
  {
    FreshOk(c.net.cfg.n, c.net.cfg.t, c.u);
    RunOk(c, st0, moves, st);
  }

  lemma FreshOk(n: nat, t: nat, u: int)
    requires n > t && u > 0
    ensures NodeOk(n, t, u, C.FreshIcc())
  {
    var icc := C.FreshIcc();
    assert (set d | d in icc.completed && |icc.completed[d]| == n) == {};
  }
}
