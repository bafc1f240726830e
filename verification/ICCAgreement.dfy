/** With all nodes acting and `n > 4t`: nodes that decide on one set of columns output one coin. */
module ICCAgreement {
  import opened IVSS
  import opened IVSSRuns
  import opened IVSSTheorems
  import C = ICC
  import R = ICCRuns
  import opened ICCJoint

  /** The coin of `icc` is that of the columns `h`, all of which it knows. */
  ghost predicate DecidedOn(u: int, icc: C.Icc, h: set<int>)
    requires u > 0
  {
    && icc.coin.Some? && C.Known(icc.attached, icc.values, h)
    && icc.coin.value == C.CoinOf(u, icc.attached, icc.values, h)
  }

  /** The pair lies within the node's own sets. */
  ghost predicate Inside(icc: C.Icc, f: C.Final) {
    icc.myA.Some? && f.h <= icc.myA.value && icc.myS.Some? && f.s <= icc.myS.value
  }

  /** A decided coin belongs to a proposed pair within the node's own sets. */
  ghost predicate Backed(u: int, icc: C.Icc)
    requires u > 0
  {
    icc.coin.Some? ==>
      exists a :: 0 <= a < |icc.finals| && Inside(icc, icc.finals[a]) && DecidedOn(u, icc, icc.finals[a].h)
  }

  /** The sets node `i` uses are those on the board, its values and completed secrets its own sharing outputs. */
  ghost predicate Tied(c: Setup, st: State, i: int, icc: C.Icc) {
    && (forall j :: j in icc.attached ==> j in st.coin.attach && st.coin.attach[j] == icc.attached[j])
    && (forall x :: x in icc.values ==>
          x in c.name && HasOutput(st.sharing, c.name[x], i, Reconstructed(icc.values[x])))
    && (forall d, x :: d in icc.completed && x in icc.completed[d] ==>
          (d, x) in c.name && HasShared(st.sharing, c.name[(d, x)], i))
  }

  /** A node that has cast its set has fixed it. */
  ghost predicate CastOnce(c: Setup, s: R.Sys) {
    forall i :: i in s.attach && i in s.nodes ==> s.nodes[i].myT.Some?
  }

  ghost predicate JointInv(c: Setup, st: State)
    requires c.Valid()
  {
    Reachable(c.net, st.sharing) && CoinInv(c, st)
  }

  ghost predicate CoinInv(c: Setup, st: State)
    requires c.u > 0
  {
    st.coin.nodes.Keys == c.net.H() && CastOnce(c, st.coin) && AllTied(c, st)
  }

  ghost predicate AllTied(c: Setup, st: State)
    requires c.u > 0
  {
    forall i :: i in st.coin.nodes ==> Tied(c, st, i, st.coin.nodes[i]) && Backed(c.u, st.coin.nodes[i])
  }

  // ------------------------------------------------------------------------ one node

  lemma CoinBacked(u: int, icc: C.Icc)
    requires u > 0 && icc.coin.None?
    ensures Backed(u, C.StepCoin(u, icc))
  {
    var icc' := C.StepCoin(u, icc);
    if icc'.coin.Some? {
      C.DecisionFrom(u, icc, 0);
      var k :| C.FirstFit(icc, k) && icc'.coin.value ==
        if exists j :: j in icc.finals[k].h && j in icc.attached && C.AddsToZero(u, icc.values, icc.attached[j], j)
        then 0 else 1;
      C.CoinIs(u, icc.attached, icc.values, icc.finals[k].h);
      C.FitsIsUsable(icc, icc.finals[k]);
      assert Inside(icc', icc'.finals[k]) && DecidedOn(u, icc', icc'.finals[k].h);
    }
  }

  /** A pass leaves the tables alone and fixes a set at most once. */
  lemma PassKeeps(n: nat, t: nat, u: int, icc: C.Icc)
    requires u > 0 && icc.coin.None?
    ensures var icc' := C.Progress(n, t, u, icc);
            && icc'.attached == icc.attached && icc'.values == icc.values && icc'.completed == icc.completed
            && Backed(u, icc')
            && (icc.myT.Some? ==> icc'.myT == icc.myT)
  {
    var icc3 := C.StepS(n, t, C.StepA(n, t, C.StepT(n, t, icc)));
    CoinBacked(u, icc3);
  }

  ghost predicate SameInputs(a: C.Icc, b: C.Icc) {
    a.attached == b.attached && a.values == b.values && a.completed == b.completed
  }

  lemma HandleKeeps(n: nat, t: nat, u: int, icc: C.Icc, e: C.Event)
    requires u > 0 && Backed(u, icc)
    ensures var icc' := C.Handle(n, t, u, icc, e);
            && Backed(u, icc') && (icc.myT.Some? ==> icc'.myT == icc.myT)
            && (icc' == icc || SameInputs(icc', C.Record(icc, e)))
  {
    if icc.coin.None? {
      PassKeeps(n, t, u, C.Record(icc, e));
    }
  }

  // -------------------------------------------------------------------------- moves

  /** What a node has output it keeps. */
  lemma OutputStays(net: Net, w: World, key: string, e: Event, other: string, i: int, r: Result)
    requires net.p > 0 && CanStep(net, w, key, e) && HasOutput(w, other, i, r)
    ensures HasOutput(Step(net, w, key, e), other, i, r)
  {
  }

  lemma SharedStays(net: Net, w: World, key: string, e: Event, other: string, i: int)
    requires net.p > 0 && CanStep(net, w, key, e) && HasShared(w, other, i)
    ensures HasShared(Step(net, w, key, e), other, i)
  {
    var m, f :| HasOutput(w, other, i, SharingComplete(m, f));
    OutputStays(net, w, key, e, other, i, SharingComplete(m, f));
  }

  lemma TiedBySharing(c: Setup, st: State, key: string, e: Event, i: int, icc: C.Icc)
    requires c.net.p > 0 && CanStep(c.net, st.sharing, key, e) && Tied(c, st, i, icc)
    ensures Tied(c, st.(sharing := Step(c.net, st.sharing, key, e)), i, icc)
  {
    forall x | x in icc.values
      ensures HasOutput(Step(c.net, st.sharing, key, e), c.name[x], i, Reconstructed(icc.values[x]))
    {
      OutputStays(c.net, st.sharing, key, e, c.name[x], i, Reconstructed(icc.values[x]));
    }
    forall d, x | d in icc.completed && x in icc.completed[d]
      ensures HasShared(Step(c.net, st.sharing, key, e), c.name[(d, x)], i)
    {
      SharedStays(c.net, st.sharing, key, e, c.name[(d, x)], i);
    }
  }

  lemma SharingKeeps(c: Setup, st: State, key: string, e: Event)
    requires c.Valid() && JointInv(c, st) && CanMove(c, st, Sharing(key, e))
    ensures JointInv(c, Next(c, st, Sharing(key, e)))
  {
    ReachableStep(c.net, st.sharing, key, e);
    forall i | i in st.coin.nodes {
      TiedBySharing(c, st, key, e, i, st.coin.nodes[i]);
    }
  }

  /** More sets on the board. */
  lemma TiedByCasts(c: Setup, st: State, st': State, i: int, icc: C.Icc)
    requires Tied(c, st, i, icc) && st'.sharing == st.sharing
    requires forall j :: j in st.coin.attach ==> j in st'.coin.attach && st'.coin.attach[j] == st.coin.attach[j]
    ensures Tied(c, st', i, icc)
  {
  }

  lemma ByzCastKeeps(c: Setup, st: State, j: int, x: C.Cast)
    requires c.Valid() && JointInv(c, st) && CanMove(c, st, ByzCast(j, x))
    ensures JointInv(c, Next(c, st, ByzCast(j, x)))
  {
    MoreSets(c, st, j, x);
  }

  lemma MoreSets(c: Setup, st: State, j: int, x: C.Cast)
    requires c.u > 0 && CoinInv(c, st) && j !in c.net.H() && Uncast(st.coin, j, x)
    ensures CoinInv(c, st.(coin := Recast(st.coin, j, x)))
  {
    var st' := st.(coin := Recast(st.coin, j, x));
    forall i | i in st.coin.nodes ensures Tied(c, st', i, st.coin.nodes[i]) {
      TiedByCasts(c, st, st', i, st.coin.nodes[i]);
    }
  }

  /** What node `i` records is on the board or in its sharing outputs. */
  lemma RecordTied(c: Setup, st: State, i: int, e: C.Event)
    requires CoinEnabled(c, st, i, e) && Tied(c, st, i, st.coin.nodes[i])
    ensures Tied(c, st, i, C.Record(st.coin.nodes[i], e))
  {
  }

  lemma TiedByTables(c: Setup, st: State, i: int, icc: C.Icc, icc': C.Icc)
    requires Tied(c, st, i, icc) && SameInputs(icc', icc)
    ensures Tied(c, st, i, icc')
  {
  }

  lemma MoverTied(c: Setup, st: State, i: int, e: C.Event)
    requires c.Valid() && i in st.coin.nodes && Tied(c, st, i, st.coin.nodes[i]) && Backed(c.u, st.coin.nodes[i])
    requires CoinEnabled(c, st, i, e)
    ensures var icc := C.Handle(c.net.cfg.n, c.net.cfg.t, c.u, st.coin.nodes[i], e);
            Tied(c, st, i, icc) && Backed(c.u, icc)
  {
    var icc := st.coin.nodes[i];
    HandleKeeps(c.net.cfg.n, c.net.cfg.t, c.u, icc, e);
    RecordTied(c, st, i, e);
    var icc' := C.Handle(c.net.cfg.n, c.net.cfg.t, c.u, icc, e);
    if icc' != icc {
      TiedByTables(c, st, i, C.Record(icc, e), icc');
    }
  }

  /** A node's set goes on the board once, so what is there stays. */
  lemma AttachGrows(c: Setup, s: R.Sys, i: int, icc': C.Icc)
    requires i in s.nodes && CastOnce(c, s) && (s.nodes[i].myT.Some? ==> icc'.myT == s.nodes[i].myT)
    ensures var s' := R.Moved(s, i, s.nodes[i], icc');
            && CastOnce(c, s')
            && (forall j :: j in s.attach ==> j in s'.attach && s'.attach[j] == s.attach[j])
  {
  }

  lemma CoinKeeps(c: Setup, st: State, i: int, e: C.Event)
    requires c.Valid() && JointInv(c, st) && CanMove(c, st, Coin(i, e))
    ensures JointInv(c, Next(c, st, Coin(i, e)))
  {
    var icc := C.Handle(c.net.cfg.n, c.net.cfg.t, c.u, st.coin.nodes[i], e);
    assert Backed(c.u, st.coin.nodes[i]);
    HandleKeeps(c.net.cfg.n, c.net.cfg.t, c.u, st.coin.nodes[i], e);
    MoverTied(c, st, i, e);
    MoveTied(c, st, i, icc);
  }

  lemma MoveTied(c: Setup, st: State, i: int, icc: C.Icc)
    requires c.u > 0 && CoinInv(c, st) && i in st.coin.nodes && Tied(c, st, i, icc) && Backed(c.u, icc)
    requires st.coin.nodes[i].myT.Some? ==> icc.myT == st.coin.nodes[i].myT
    ensures CoinInv(c, st.(coin := R.Moved(st.coin, i, st.coin.nodes[i], icc)))
  {
    AttachGrows(c, st.coin, i, icc);
    OthersTied(c, st, i, icc);
    assert R.Moved(st.coin, i, st.coin.nodes[i], icc).nodes.Keys == c.net.H();
  }

  lemma OthersTied(c: Setup, st: State, i: int, icc: C.Icc)
    requires c.u > 0 && AllTied(c, st) && i in st.coin.nodes && Tied(c, st, i, icc) && Backed(c.u, icc)
    requires var s' := R.Moved(st.coin, i, st.coin.nodes[i], icc);
             forall j :: j in st.coin.attach ==> j in s'.attach && s'.attach[j] == st.coin.attach[j]
    ensures AllTied(c, st.(coin := R.Moved(st.coin, i, st.coin.nodes[i], icc)))
  {
    var st' := st.(coin := R.Moved(st.coin, i, st.coin.nodes[i], icc));
    forall k | k in st'.coin.nodes ensures Tied(c, st', k, st'.coin.nodes[k]) && Backed(c.u, st'.coin.nodes[k]) {
      TiedByCasts(c, st, st', k, st'.coin.nodes[k]);
    }
  }

  lemma {:induction false} JointRunInv(c: Setup, st: State, moves: seq<Move>, st': State)
    requires c.Valid() && JointInv(c, st) && JointRun(c, st, moves, st')
    ensures JointInv(c, st')
    decreases |moves|
  {
    if moves != [] {
      match moves[0] {
        case Sharing(key, e) => SharingKeeps(c, st, key, e);
        case Coin(i, e) => CoinKeeps(c, st, i, e);
        case ByzCast(j, x) => ByzCastKeeps(c, st, j, x);
      }
      JointRunInv(c, Next(c, st, moves[0]), moves[1..], st');
    }
  }

  lemma FreshInv(c: Setup, st: State)
    requires c.u > 0 && CoinInit(c, st.coin)
    ensures CoinInv(c, st)
  {
  }

  lemma JointReach(c: Setup, st0: State, moves: seq<Move>, st: State)
    requires c.Valid() && JointInit(c, st0) && JointRun(c, st0, moves, st)
    ensures JointInv(c, st)
  {
    InitReachable(c.net, st0.sharing);
    FreshInv(c, st0);
    JointRunInv(c, st0, moves, st);
  }

  // ----------------------------------------------------------------------- theorems

  /** In any joint run a node counts, attaches and adds up only what was shared, cast and reconstructed. */
  lemma InputsOverRuns(c: Setup, st0: State, moves: seq<Move>, st: State, i: int)
    requires c.Valid() && JointInit(c, st0) && JointRun(c, st0, moves, st) && i in st.coin.nodes
    ensures Tied(c, st, i, st.coin.nodes[i])
  {
    JointReach(c, st0, moves, st);
  }

  /** Every coin in any joint run is that of a set of columns somebody proposed. */
  lemma CoinHasSet(c: Setup, st0: State, moves: seq<Move>, st: State, i: int) returns (a: nat)
    requires c.Valid() && JointInit(c, st0) && JointRun(c, st0, moves, st)
    requires i in st.coin.nodes && st.coin.nodes[i].coin.Some?
    ensures var icc := st.coin.nodes[i];
            && a < |icc.finals| && DecidedOn(c.u, icc, icc.finals[a].h)
            && icc.myA.Some? && icc.finals[a].h <= icc.myA.value
            && icc.myS.Some? && icc.finals[a].s <= icc.myS.value
  {
    JointReach(c, st0, moves, st);
    var icc := st.coin.nodes[i];
    assert Backed(c.u, icc);
    a :| 0 <= a < |icc.finals| && Inside(icc, icc.finals[a]) && DecidedOn(c.u, icc, icc.finals[a].h);
  }

  /** With `n > 4t` two nodes know one value for each secret. */
  lemma SameValues(c: Setup, st: State, i: int, k: int, x: (int, int))
    requires c.Valid() && JointInv(c, st) && c.net.cfg.n > 4 * c.net.cfg.t && i in st.coin.nodes && k in st.coin.nodes
    requires x in st.coin.nodes[i].values && x in st.coin.nodes[k].values
    ensures st.coin.nodes[i].values[x] == st.coin.nodes[k].values[x]
  {
    assert Tied(c, st, i, st.coin.nodes[i]) && Tied(c, st, k, st.coin.nodes[k]);
    CommitmentOverRuns(c.net, st.sharing, c.name[x], i, k, st.coin.nodes[i].values[x], st.coin.nodes[k].values[x]);
  }

  /**
   In any joint run with `n > 4t`, whoever deals, reveals and casts what: two nodes that decide on the same set of
   columns output the same coin.
   */
  lemma OneSetOneCoin(c: Setup, st0: State, moves: seq<Move>, st: State, i: int, k: int, h: set<int>)
    requires c.Valid() && JointInit(c, st0) && JointRun(c, st0, moves, st) && c.net.cfg.n > 4 * c.net.cfg.t
    requires i in st.coin.nodes && k in st.coin.nodes
    requires DecidedOn(c.u, st.coin.nodes[i], h) && DecidedOn(c.u, st.coin.nodes[k], h)
    ensures st.coin.nodes[i].coin == st.coin.nodes[k].coin
  {
    JointReach(c, st0, moves, st);
    var a, b := st.coin.nodes[i], st.coin.nodes[k];
    assert Tied(c, st, i, a) && Tied(c, st, k, b);
    forall x | x in a.values && x in b.values ensures a.values[x] == b.values[x] {
      SameValues(c, st, i, k, x);
    }
    R.SameSetSameCoin(c.u, h, a.attached, a.values, b.attached, b.values);
  }
}
