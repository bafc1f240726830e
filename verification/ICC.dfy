/** The common coin: what one node does in one round, as functions of its state. */
module ICC {
  import opened Quorums
  import opened Products

  /** A proposed pair of sets from the last step. */
  datatype Final = Final(h: set<int>, s: set<int>)

  /**
   `completed` holds, per dealer, the secrets whose sharing is over; `attached` and `accepted` the sets received
   from others; `values` the reconstructed secrets by (dealer, index). A step is over when its set is there.
   */
  datatype Icc = Icc(
    completed: map<int, set<int>>,
    myT: Option<set<int>>,
    attached: map<int, set<int>>,
    myA: Option<set<int>>,
    accepted: map<int, set<int>>,
    myS: Option<set<int>>,
    values: map<(int, int), int>,
    finals: seq<Final>,
    coin: Option<int>)

  function FreshIcc(): Icc {
    Icc(map[], None, map[], None, map[], None, map[], [], None)
  }

  datatype Cast = Attach(t: set<int>) | Accept(a: set<int>) | FinalSets(final: Final)

  // ----------------------------------------------------------------------- steps

  /** Dealers all of whose `n` secrets are shared. */
  function FullDealers(n: nat, completed: map<int, set<int>>): set<int> {
    set d | d in completed && |completed[d]| == n
  }

  /** Senders whose set lies within `all`. */
  function Within(table: map<int, set<int>>, all: set<int>): set<int> {
    set j | j in table && table[j] <= all
  }

  function StepT(n: nat, t: nat, icc: Icc): (r: Icc)
    ensures r == icc.(myT := r.myT)
  {
    var full := FullDealers(n, icc.completed);
    if icc.myT.None? && |full| >= n - t then icc.(myT := Some(full)) else icc
  }

  function StepA(n: nat, t: nat, icc: Icc): (r: Icc)
    ensures r == icc.(myA := r.myA)
  {
    if icc.myA.None? && icc.myT.Some? && |Within(icc.attached, icc.myT.value)| >= n - t
    then icc.(myA := Some(Within(icc.attached, icc.myT.value)))
    else icc
  }

  function StepS(n: nat, t: nat, icc: Icc): (r: Icc)
    ensures r == icc.(myS := r.myS)
  {
    if icc.myS.None? && icc.myA.Some? && |Within(icc.accepted, icc.myA.value)| >= n - t
    then icc.(myS := Some(Within(icc.accepted, icc.myA.value)))
    else icc
  }

  /** What a step has just added. */
  function Added(before: Option<set<int>>, after: Option<set<int>>): Option<set<int>> {
    if before.None? then after else None
  }

  // ----------------------------------------------------------------------- coin

  ghost function ColumnSum(values: map<(int, int), int>, dealers: set<int>, j: int): int
    decreases |dealers|
  {
    if dealers == {} then 0
    else
      var k := Choose(dealers);
      (if (k, j) in values then values[(k, j)] else 0) + ColumnSum(values, dealers - {k}, j)
  }

  lemma {:induction false} ColumnSplit(values: map<(int, int), int>, dealers: set<int>, j: int, k: int)
    requires k in dealers
    ensures ColumnSum(values, dealers, j) ==
      (if (k, j) in values then values[(k, j)] else 0) + ColumnSum(values, dealers - {k}, j)
    decreases |dealers|
  {
    var l := Choose(dealers);
    if l != k {
      ColumnSplit(values, dealers - {l}, j, k);
      ColumnSplit(values, dealers - {k}, j, l);
      assert dealers - {l} - {k} == dealers - {k} - {l};
    }
  }

  lemma {:induction false} ColumnSame(v: map<(int, int), int>, v': map<(int, int), int>, dealers: set<int>, j: int)
    requires forall k :: k in dealers ==> (k, j) in v && (k, j) in v' && v[(k, j)] == v'[(k, j)]
    ensures ColumnSum(v, dealers, j) == ColumnSum(v', dealers, j)
    decreases |dealers|
  {
    if dealers != {} {
      ColumnSame(v, v', dealers - {Choose(dealers)}, j);
    }
  }

  /** `ks` lists the dealers, each once. */
  ghost predicate ListOf(ks: seq<int>, dealers: set<int>) {
    (forall a, b :: 0 <= a < b < |ks| ==> ks[a] != ks[b]) && (set k | k in ks) == dealers
  }

  /** The running total of the secrets `ks[0], ..., ks[|ks| - 1]` dealt for column `j`. */
  function Total(values: map<(int, int), int>, ks: seq<int>, j: int): int {
    if ks == [] then 0
    else
      var k := ks[|ks| - 1];
      Total(values, ks[..|ks| - 1], j) + (if (k, j) in values then values[(k, j)] else 0)
  }

  /** A column sums to the plain total of its secrets, in whatever order they are added. */
  lemma {:induction false} ColumnIsTotal(values: map<(int, int), int>, ks: seq<int>, dealers: set<int>, j: int)
    requires ListOf(ks, dealers)
    ensures ColumnSum(values, dealers, j) == Total(values, ks, j)
    decreases |ks|
  {
    if ks == [] {
      assert dealers == {};
    } else {
      var rest, k := ks[..|ks| - 1], ks[|ks| - 1];
      ListLess(ks, dealers);
      ColumnIsTotal(values, rest, dealers - {k}, j);
      ColumnSplit(values, dealers, j, k);
    }
  }

  lemma ListLess(ks: seq<int>, dealers: set<int>)
    requires ListOf(ks, dealers) && ks != []
    ensures ks[|ks| - 1] in dealers && ListOf(ks[..|ks| - 1], dealers - {ks[|ks| - 1]})
  {
    var rest, k := ks[..|ks| - 1], ks[|ks| - 1];
    assert ks == rest + [k];
    assert (set x | x in rest) == dealers - {k};
  }

  lemma {:induction false} SomeList(dealers: set<int>) returns (ks: seq<int>)
    ensures ListOf(ks, dealers)
    decreases |dealers|
  {
    if dealers == {} {
      ks := [];
    } else {
      var k := Choose(dealers);
      var rest := SomeList(dealers - {k});
      ks := rest + [k];
      assert forall a :: 0 <= a < |rest| ==> rest[a] in dealers - {k};
      assert (set x | x in ks) == (set x | x in rest) + {k};
    }
  }

  /** The secrets dealt for column `j` add up to 0 modulo `u`. */
  ghost predicate AddsToZero(u: int, values: map<(int, int), int>, dealers: set<int>, j: int)
    requires u > 0
  {
    exists ks :: ListOf(ks, dealers) && Total(values, ks, j) % u == 0
  }

  lemma ZeroIsTotal(u: int, values: map<(int, int), int>, dealers: set<int>, j: int)
    requires u > 0
    ensures AddsToZero(u, values, dealers, j) <==> ColumnSum(values, dealers, j) % u == 0
  {
    var ks := SomeList(dealers);
    ColumnIsTotal(values, ks, dealers, j);
    if ks' :| ListOf(ks', dealers) && Total(values, ks', j) % u == 0 {
      ColumnIsTotal(values, ks', dealers, j);
    }
  }

  /** The column of one dealer is its secret. */
  lemma SingleColumn(values: map<(int, int), int>, k: int, j: int)
    requires (k, j) in values
    ensures ColumnSum(values, {k}, j) == values[(k, j)]
  {
    assert ListOf([k], {k});
    ColumnIsTotal(values, [k], {k}, j);
    assert [k][..0] == [];
  }

  /** Everything the column of `j` sums over is known. */
  predicate ColumnKnown(attached: map<int, set<int>>, values: map<(int, int), int>, j: int) {
    j in attached && forall k :: k in attached[j] ==> (k, j) in values
  }

  predicate Known(attached: map<int, set<int>>, values: map<(int, int), int>, h: set<int>) {
    forall j :: j in h ==> ColumnKnown(attached, values, j)
  }

  ghost predicate ZeroColumn(u: int, attached: map<int, set<int>>, values: map<(int, int), int>, j: int)
    requires u > 0
  {
    j in attached && ColumnSum(values, attached[j], j) % u == 0
  }

  /** 0 if some column of `h` sums to 0 modulo `u`, else 1. */
  ghost function CoinOf(u: int, attached: map<int, set<int>>, values: map<(int, int), int>, h: set<int>): int
    requires u > 0
  {
    if exists j :: j in h && ZeroColumn(u, attached, values, j) then 0 else 1
  }

  /** The coin of `h` is 0 exactly when the secrets of one of its columns add up to 0 modulo `u`. */
  lemma CoinIs(u: int, attached: map<int, set<int>>, values: map<(int, int), int>, h: set<int>)
    requires u > 0
    ensures CoinOf(u, attached, values, h) ==
            if exists j :: j in h && j in attached && AddsToZero(u, values, attached[j], j) then 0 else 1
  {
    forall j | j in h && j in attached
      ensures ZeroColumn(u, attached, values, j) <==> AddsToZero(u, values, attached[j], j)
    {
      ZeroIsTotal(u, values, attached[j], j);
    }
  }

  predicate Usable(icc: Icc, f: Final) {
    && icc.myA.Some? && icc.myS.Some? && f.h <= icc.myA.value && f.s <= icc.myS.value
    && Known(icc.attached, icc.values, f.h)
  }

  /** The first usable pair from position `a` on decides. */
  ghost function Decision(u: int, icc: Icc, a: nat): Option<int>
    requires u > 0 && a <= |icc.finals|
    decreases |icc.finals| - a
  {
    if a == |icc.finals| then None
    else if Usable(icc, icc.finals[a]) then Some(CoinOf(u, icc.attached, icc.values, icc.finals[a].h))
    else Decision(u, icc, a + 1)
  }

  /** The pair lies within the node's own sets, and every secret of its columns is known. */
  ghost predicate Fits(icc: Icc, f: Final) {
    && icc.myA.Some? && f.h <= icc.myA.value && icc.myS.Some? && f.s <= icc.myS.value
    && (forall j :: j in f.h ==> j in icc.attached && forall k :: k in icc.attached[j] ==> (k, j) in icc.values)
  }

  /** The first pair that fits. */
  ghost predicate FirstFit(icc: Icc, a: int) {
    0 <= a < |icc.finals| && Fits(icc, icc.finals[a]) && forall b :: 0 <= b < a ==> !Fits(icc, icc.finals[b])
  }

  /** The coin is that of the first pair that fits: 0 iff a column's secrets add up to 0. There is none if none fits. */
  ghost predicate Decides(u: int, icc: Icc, coin: Option<int>)
    requires u > 0
  {
    if coin.None? then forall a :: 0 <= a < |icc.finals| ==> !Fits(icc, icc.finals[a])
    else exists a :: FirstFit(icc, a) && coin.value ==
           if exists j :: j in icc.finals[a].h && j in icc.attached && AddsToZero(u, icc.values, icc.attached[j], j)
           then 0 else 1
  }

  lemma {:induction false} DecisionFrom(u: int, icc: Icc, a: nat)
    requires u > 0 && a <= |icc.finals| && forall b :: 0 <= b < a ==> !Fits(icc, icc.finals[b])
    ensures Decides(u, icc, Decision(u, icc, a))
    decreases |icc.finals| - a
  {
    if a < |icc.finals| {
      FitsIsUsable(icc, icc.finals[a]);
      if Usable(icc, icc.finals[a]) {
        FirstDecides(u, icc, a);
      } else {
        DecisionFrom(u, icc, a + 1);
      }
    }
  }

  lemma FirstDecides(u: int, icc: Icc, a: nat)
    requires u > 0 && FirstFit(icc, a)
    ensures Decides(u, icc, Some(CoinOf(u, icc.attached, icc.values, icc.finals[a].h)))
  {
    CoinIs(u, icc.attached, icc.values, icc.finals[a].h);
  }

  lemma FitsIsUsable(icc: Icc, f: Final)
    ensures Usable(icc, f) <==> Fits(icc, f)
  {
    if Usable(icc, f) {
      forall j | j in f.h ensures j in icc.attached && forall k :: k in icc.attached[j] ==> (k, j) in icc.values {
        assert ColumnKnown(icc.attached, icc.values, j);
      }
    }
  }

  ghost function StepCoin(u: int, icc: Icc): Icc
    requires u > 0
  {
    if icc.coin.Some? then icc else icc.(coin := Decision(u, icc, 0))
  }

  ghost function Progress(n: nat, t: nat, u: int, icc: Icc): Icc
    requires u > 0
  {
    StepCoin(u, StepS(n, t, StepA(n, t, StepT(n, t, icc))))
  }

  /** The casts of one pass, in order. */
  function Casts(before: Icc, after: Icc): seq<Cast> {
    var nt, na, ns := Added(before.myT, after.myT), Added(before.myA, after.myA), Added(before.myS, after.myS);
    (if nt.Some? then [Attach(nt.value)] else [])
    + (if na.Some? then [Accept(na.value)] else [])
    + (if ns.Some? && after.myA.Some? then [FinalSets(Final(after.myA.value, ns.value))] else [])
  }

  // --------------------------------------------------------------------- events

  datatype Event =
    | Shared(dealer: int, index: int)
    | Rebuilt(dealer: int, index: int, value: int)
    | GotAttach(from: int, t: set<int>)
    | GotAccept(from: int, a: set<int>)
    | GotFinal(from: int, f: Final)

  function SecretsOf(completed: map<int, set<int>>, d: int): set<int> {
    if d in completed then completed[d] else {}
  }

  function Record(icc: Icc, e: Event): Icc {
    match e
    case Shared(d, i) => icc.(completed := icc.completed[d := SecretsOf(icc.completed, d) + {i}])
    case Rebuilt(d, i, v) => icc.(values := icc.values[(d, i) := v])
    case GotAttach(from, t) => icc.(attached := icc.attached[from := t])
    case GotAccept(from, a) => icc.(accepted := icc.accepted[from := a])
    case GotFinal(from, f) => icc.(finals := icc.finals + [f])
  }

  /** A finished round ignores everything. */
  ghost function Handle(n: nat, t: nat, u: int, icc: Icc, e: Event): Icc
    requires u > 0
  {
    if icc.coin.Some? then icc else Progress(n, t, u, Record(icc, e))
  }

  ghost predicate SameTables(a: Icc, b: Icc) {
    && a.completed == b.completed && a.attached == b.attached && a.accepted == b.accepted
    && a.values == b.values && a.finals == b.finals
  }

  lemma StepTOnce(n: nat, t: nat, icc: Icc, later: Icc)
    requires SameTables(icc, later) && later.myT == StepT(n, t, icc).myT
    ensures StepT(n, t, later) == later
  {
  }

  lemma StepAOnce(n: nat, t: nat, icc: Icc, later: Icc)
    requires SameTables(icc, later) && later.myT == icc.myT && later.myA == StepA(n, t, icc).myA
    ensures StepA(n, t, later) == later
  {
  }

  lemma StepSOnce(n: nat, t: nat, icc: Icc, later: Icc)
    requires SameTables(icc, later) && later.myA == icc.myA && later.myS == StepS(n, t, icc).myS
    ensures StepS(n, t, later) == later
  {
  }

  lemma StepCoinOnce(u: int, icc: Icc)
    requires u > 0
    ensures StepCoin(u, StepCoin(u, icc)) == StepCoin(u, icc)
  {
    DecisionOfSets(u, icc, StepCoin(u, icc), 0);
  }

  /** A second pass finds nothing more to do. */
  lemma ProgressOnce(n: nat, t: nat, u: int, icc: Icc)
    requires u > 0
    ensures Progress(n, t, u, Progress(n, t, u, icc)) == Progress(n, t, u, icc)
  {
    var a := StepT(n, t, icc);
    var b := StepA(n, t, a);
    var c := StepS(n, t, b);
    StepsOnce(n, t, icc, a, b, c, StepCoin(u, c));
    StepCoinOnce(u, c);
  }

  lemma StepsOnce(n: nat, t: nat, icc: Icc, a: Icc, b: Icc, c: Icc, d: Icc)
    requires a == icc.(myT := a.myT) && b == a.(myA := b.myA) && c == b.(myS := c.myS) && d == c.(coin := d.coin)
    requires a.myT == StepT(n, t, icc).myT && b.myA == StepA(n, t, a).myA && c.myS == StepS(n, t, b).myS
    ensures StepT(n, t, d) == d && StepA(n, t, d) == d && StepS(n, t, d) == d
  {
    StepTOnce(n, t, icc, d);
    StepAOnce(n, t, a, d);
    StepSOnce(n, t, b, d);
  }

  /** The decision does not look at the coin field. */
  lemma {:induction false} DecisionOfSets(u: int, icc: Icc, icc': Icc, a: nat)
    requires u > 0 && icc' == icc.(coin := icc'.coin) && a <= |icc.finals|
    ensures Decision(u, icc', a) == Decision(u, icc, a)
    decreases |icc.finals| - a
  {
    if a < |icc.finals| {
      DecisionOfSets(u, icc, icc', a + 1);
    }
  }
}
