/** The common coin when exactly `n - t` nodes ever act: every set is the live set and every coin is the same. */
module ICCRuns {
  import opened Quorums
  import opened ICC

  /** `secrets` are the values dealt by the live nodes, by (dealer, index); the other nodes stay silent. */
  datatype Setup = Setup(n: nat, t: nat, u: int, live: set<int>, secrets: map<(int, int), int>) {
    predicate Valid() {
      n > t && u > 0 && |live| == n - t
    }
  }

  /** The nodes' states and what they have A-Cast in each step. */
  datatype Sys = Sys(nodes: map<int, Icc>, attach: map<int, set<int>>, accept: map<int, set<int>>,
                     final: map<int, Final>)

  /** Sharings and reconstructions of live dealers' secrets, and deliveries of casts. */
  predicate Enabled(c: Setup, s: Sys, i: int, e: Event) {
    && i in s.nodes
    && match e
       case Shared(d, x) => d in c.live
       case Rebuilt(d, x, v) => (d, x) in c.secrets && c.secrets[(d, x)] == v
       case GotAttach(from, t) => from in s.attach && s.attach[from] == t
       case GotAccept(from, a) => from in s.accept && s.accept[from] == a
       case GotFinal(from, f) => from in s.final && s.final[from] == f
  }

  function Put<V>(m: map<int, V>, i: int, v: Option<V>): map<int, V> {
    if v.Some? then m[i := v.value] else m
  }

  function FinalOf(before: Icc, after: Icc): Option<Final> {
    var s := Added(before.myS, after.myS);
    if s.Some? && after.myA.Some? then Some(Final(after.myA.value, s.value)) else None
  }

  /** Node `i` moved from `before` to `after` and cast what that adds. */
  function Moved(s: Sys, i: int, before: Icc, after: Icc): Sys {
    Sys(s.nodes[i := after], Put(s.attach, i, Added(before.myT, after.myT)),
        Put(s.accept, i, Added(before.myA, after.myA)), Put(s.final, i, FinalOf(before, after)))
  }

  ghost function Step(c: Setup, s: Sys, i: int, e: Event): Sys
    requires c.Valid() && Enabled(c, s, i, e)
  {
    Moved(s, i, s.nodes[i], Handle(c.n, c.t, c.u, s.nodes[i], e))
  }

  ghost predicate Run(c: Setup, s: Sys, steps: seq<(int, Event)>, s': Sys)
    requires c.Valid()
    decreases |steps|
  {
    if steps == [] then s == s'
    else
      Enabled(c, s, steps[0].0, steps[0].1) && Run(c, Step(c, s, steps[0].0, steps[0].1), steps[1..], s')
  }

  ghost predicate Init(c: Setup, s: Sys) {
    && s.nodes.Keys == c.live && s.attach == map[] && s.accept == map[] && s.final == map[]
    && forall i :: i in s.nodes ==> s.nodes[i] == FreshIcc()
  }

  /** 0 if some live column of the dealt secrets sums to 0 modulo `u`, else 1. */
  ghost function TheCoin(c: Setup): int
    requires c.Valid()
  {
    if exists j :: j in c.live && AddsToZero(c.u, c.secrets, c.live, j) then 0 else 1
  }

  // ------------------------------------------------------------------- invariant

  predicate OnlyLive(c: Setup, m: map<int, set<int>>) {
    forall i :: i in m ==> i in c.live && m[i] == c.live
  }

  predicate SetOk(c: Setup, s: Option<set<int>>) {
    s.Some? ==> s.value == c.live
  }

  predicate FinalOk(c: Setup, f: Final) {
    f.h == c.live && f.s == c.live
  }

  ghost predicate TablesOk(c: Setup, icc: Icc) {
    && icc.completed.Keys <= c.live && OnlyLive(c, icc.attached) && OnlyLive(c, icc.accepted)
    && (forall x :: x in icc.values ==> x in c.secrets && icc.values[x] == c.secrets[x])
    && (forall a :: 0 <= a < |icc.finals| ==> FinalOk(c, icc.finals[a]))
  }

  ghost predicate NodeOk(c: Setup, icc: Icc)
    requires c.Valid()
  {
    && TablesOk(c, icc) && SetOk(c, icc.myT) && SetOk(c, icc.myA) && SetOk(c, icc.myS)
    && (icc.coin.Some? ==> icc.coin.value == TheCoin(c))
  }

  predicate FinalsOk(c: Setup, finals: map<int, Final>) {
    forall i :: i in finals ==> FinalOk(c, finals[i])
  }

  ghost predicate NodesOk(c: Setup, nodes: map<int, Icc>)
    requires c.Valid()
  {
    forall i :: i in nodes ==> NodeOk(c, nodes[i])
  }

  ghost predicate Inv(c: Setup, s: Sys)
    requires c.Valid()
  {
    && s.nodes.Keys == c.live && OnlyLive(c, s.attach) && OnlyLive(c, s.accept)
    && FinalsOk(c, s.final) && NodesOk(c, s.nodes)
  }

  /** `n - t` live members are all of them. */
  lemma AllLive(c: Setup, s: set<int>)
    requires c.Valid() && s <= c.live && |s| >= c.n - c.t
    ensures s == c.live
  {
    FullSubset(s, c.live);
  }

  lemma WithinLive(c: Setup, table: map<int, set<int>>, all: set<int>)
    requires c.Valid() && OnlyLive(c, table) && |Within(table, all)| >= c.n - c.t
    ensures Within(table, all) == c.live
  {
    forall j | j in Within(table, all) ensures j in c.live {
      assert j in table;
    }
    AllLive(c, Within(table, all));
  }

  lemma StepTKeeps(c: Setup, icc: Icc)
    requires c.Valid() && NodeOk(c, icc)
    ensures NodeOk(c, StepT(c.n, c.t, icc))
  {
    var full := FullDealers(c.n, icc.completed);
    if |full| >= c.n - c.t {
      AllLive(c, full);
    }
  }

  lemma StepAKeeps(c: Setup, icc: Icc)
    requires c.Valid() && NodeOk(c, icc)
    ensures NodeOk(c, StepA(c.n, c.t, icc))
  {
    if icc.myT.Some? && |Within(icc.attached, icc.myT.value)| >= c.n - c.t {
      WithinLive(c, icc.attached, icc.myT.value);
    }
  }

  lemma StepSKeeps(c: Setup, icc: Icc)
    requires c.Valid() && NodeOk(c, icc)
    ensures NodeOk(c, StepS(c.n, c.t, icc))
  {
    if icc.myA.Some? && |Within(icc.accepted, icc.myA.value)| >= c.n - c.t {
      WithinLive(c, icc.accepted, icc.myA.value);
    }
  }

  /** With everything live known, the coin is the one the secrets fix. */
  lemma LiveCoin(c: Setup, icc: Icc)
    requires c.Valid() && TablesOk(c, icc) && Known(icc.attached, icc.values, c.live)
    ensures CoinOf(c.u, icc.attached, icc.values, c.live) == TheCoin(c)
  {
    forall j | j in c.live
      ensures ZeroColumn(c.u, icc.attached, icc.values, j) <==> AddsToZero(c.u, c.secrets, c.live, j)
    {
      assert ColumnKnown(icc.attached, icc.values, j);
      ColumnSame(icc.values, c.secrets, c.live, j);
      ZeroIsTotal(c.u, c.secrets, c.live, j);
    }
  }

  lemma {:induction false} DecisionKeeps(c: Setup, icc: Icc, a: nat)
    requires c.Valid() && TablesOk(c, icc) && a <= |icc.finals|
    ensures Decision(c.u, icc, a).Some? ==> Decision(c.u, icc, a).value == TheCoin(c)
    decreases |icc.finals| - a
  {
    if a < |icc.finals| {
      DecisionKeeps(c, icc, a + 1);
      if Usable(icc, icc.finals[a]) {
        LiveCoin(c, icc);
      }
    }
  }

  lemma ProgressKeeps(c: Setup, icc: Icc)
    requires c.Valid() && NodeOk(c, icc)
    ensures NodeOk(c, Progress(c.n, c.t, c.u, icc))
  {
    StepTKeeps(c, icc);
    var a := StepT(c.n, c.t, icc);
    StepAKeeps(c, a);
    var b := StepA(c.n, c.t, a);
    StepSKeeps(c, b);
    var d := StepS(c.n, c.t, b);
    DecisionKeeps(c, d, 0);
  }

  lemma RecordKeeps(c: Setup, s: Sys, i: int, e: Event)
    requires c.Valid() && Inv(c, s) && Enabled(c, s, i, e)
    ensures NodeOk(c, Record(s.nodes[i], e))
  {
    assert NodeOk(c, s.nodes[i]);
  }

  lemma MovedKeeps(c: Setup, s: Sys, i: int, before: Icc, after: Icc)
    requires c.Valid() && Inv(c, s) && i in c.live && NodeOk(c, after)
    ensures Inv(c, Moved(s, i, before, after))
  {
    var s' := Moved(s, i, before, after);
    assert s'.nodes.Keys == c.live;
    assert OnlyLive(c, s'.attach) && OnlyLive(c, s'.accept) && FinalsOk(c, s'.final);
    assert NodesOk(c, s'.nodes);
  }

  lemma StepInv(c: Setup, s: Sys, i: int, e: Event)
    requires c.Valid() && Inv(c, s) && Enabled(c, s, i, e)
    ensures Inv(c, Step(c, s, i, e))
  {
    assert NodeOk(c, s.nodes[i]);
    if s.nodes[i].coin.None? {
      RecordKeeps(c, s, i, e);
      ProgressKeeps(c, Record(s.nodes[i], e));
    }
    MovedKeeps(c, s, i, s.nodes[i], Handle(c.n, c.t, c.u, s.nodes[i], e));
  }

  lemma {:induction false} RunInv(c: Setup, s: Sys, steps: seq<(int, Event)>, s': Sys)
    requires c.Valid() && Inv(c, s) && Run(c, s, steps, s')
    ensures Inv(c, s')
    decreases |steps|
  {
    if steps != [] {
      StepInv(c, s, steps[0].0, steps[0].1);
      RunInv(c, Step(c, s, steps[0].0, steps[0].1), steps[1..], s');
    }
  }

  lemma InitInv(c: Setup, s: Sys)
    requires c.Valid() && Init(c, s)
    ensures Inv(c, s)
  {
    assert NodeOk(c, FreshIcc());
  }

  // -------------------------------------------------------------------- theorems

  /** Every set any node ever fixes is the live set, and every coin is the one the dealt secrets determine. */
  lemma CommonCoin(c: Setup, s0: Sys, steps: seq<(int, Event)>, s: Sys, i: int)
    requires c.Valid() && Init(c, s0) && Run(c, s0, steps, s) && i in c.live
    ensures i in s.nodes
    ensures var icc := s.nodes[i];
      && (icc.myT.Some? ==> icc.myT.value == c.live) && (icc.myA.Some? ==> icc.myA.value == c.live)
      && (icc.myS.Some? ==> icc.myS.value == c.live) && (icc.coin.Some? ==> icc.coin.value == TheCoin(c))
      && (forall a :: 0 <= a < |icc.finals| ==> icc.finals[a] == Final(c.live, c.live))
    ensures i in s.final ==> s.final[i] == Final(c.live, c.live)
  {
    InitInv(c, s0);
    RunInv(c, s0, steps, s);
    assert NodeOk(c, s.nodes[i]);
  }

  /**
   In any run: nodes that agree on the attached sets and on the secrets they know evaluate one proposed set
   to one coin.
   */
  lemma SameSetSameCoin(u: int, h: set<int>, attached: map<int, set<int>>, values: map<(int, int), int>,
                        attached': map<int, set<int>>, values': map<(int, int), int>)
    requires u > 0 && Known(attached, values, h) && Known(attached', values', h)
    requires forall j :: j in attached && j in attached' ==> attached[j] == attached'[j]
    requires forall x :: x in values && x in values' ==> values[x] == values'[x]
    ensures CoinOf(u, attached, values, h) == CoinOf(u, attached', values', h)
  {
    forall j | j in h ensures ZeroColumn(u, attached, values, j) <==> ZeroColumn(u, attached', values', j) {
      assert ColumnKnown(attached, values, j) && ColumnKnown(attached', values', j);
      ColumnSame(values, values', attached[j], j);
    }
  }
}
