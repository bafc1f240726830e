/** The coin service of one node: one pass of `checkProgress` with its loops. */
module ICCService {
  import opened Quorums
  import opened ICC
  import V = VoteService

  class ICCService {
    const id: int
    const n: nat
    const t: nat
    const u: int
    var state: Icc
    var counts: map<int, nat>
    var outbox: seq<Cast>
    var requests: seq<(int, int)>
    var results: seq<int>

    constructor (id: int, n: nat, t: nat, u: int)
      requires u > 0
      ensures this.id == id && this.n == n && this.t == t && this.u == u
      ensures Valid() && state == FreshIcc() && outbox == [] && requests == [] && results == []
    {
      this.id, this.n, this.t, this.u := id, n, t, u;
      state, counts, outbox, requests, results := FreshIcc(), map[], [], [], [];
    }

    /** The counter kept beside each dealer's set of completed secrets is its size. */
    ghost predicate Valid()
      reads this
    {
      u > 0 && counts.Keys == state.completed.Keys && forall d :: d in counts ==> counts[d] == |state.completed[d]|
    }

    method CompleteDealers() returns (full: set<int>)
      requires Valid()
      ensures full == FullDealers(n, state.completed)
      ensures full == set d | d in state.completed && |state.completed[d]| == n
    {
      full := {};
      var left := counts.Keys;
      while left != {}
        invariant left <= counts.Keys
        invariant forall d :: d in full <==> d in counts && d !in left && counts[d] == n
        decreases |left|
      {
        ghost var some := Pick(left);
        var d :| d in left;
        if counts[d] == n {
          full := full + {d};
        }
        left := left - {d};
      }
      forall d ensures d in full <==> d in FullDealers(n, state.completed) {
      }
    }

    method Filter(table: map<int, set<int>>, all: set<int>) returns (r: set<int>)
      ensures r == Within(table, all)
      ensures r == set j | j in table && table[j] <= all
    {
      r := {};
      var left := table.Keys;
      while left != {}
        invariant left <= table.Keys
        invariant r == set j | j in table.Keys - left && table[j] <= all
        decreases |left|
      {
        ghost var some := Pick(left);
        var j :| j in left;
        var within := V.IsSubset(table[j], all);
        if within {
          r := r + {j};
        }
        left := left - {j};
      }
    }

    /** The sum of a column, unless one of its secrets is missing. */
    method SumColumn(j: int) returns (sum: Option<int>)
      ensures sum.Some? <==> ColumnKnown(state.attached, state.values, j)
      ensures sum.Some? ==> sum.value == ColumnSum(state.values, state.attached[j], j)
      ensures sum.Some? ==> forall ks :: ListOf(ks, state.attached[j]) ==> sum.value == Total(state.values, ks, j)
    {
      if j !in state.attached {
        return None;
      }
      var dealers := state.attached[j];
      var total, left := 0, dealers;
      while left != {}
        invariant left <= dealers
        invariant forall k :: k in dealers - left ==> (k, j) in state.values
        invariant ColumnSum(state.values, dealers, j) == total + ColumnSum(state.values, left, j)
        decreases |left|
      {
        ghost var some := Pick(left);
        var k :| k in left;
        if (k, j) !in state.values {
          return None;
        }
        ColumnSplit(state.values, left, j, k);
        total := total + state.values[(k, j)];
        left := left - {k};
      }
      sum := Some(total);
      forall ks | ListOf(ks, dealers) ensures total == Total(state.values, ks, j) {
        ColumnIsTotal(state.values, ks, dealers, j);
      }
    }

    /** The coin of one proposed set, unless something is missing. */
    method Evaluate(h: set<int>) returns (coin: Option<int>)
      requires Valid()
      ensures coin.Some? <==> Known(state.attached, state.values, h)
      ensures coin.Some? ==> coin.value == CoinOf(u, state.attached, state.values, h)
      ensures coin.Some? ==>
        coin.value == if exists j :: j in h && j in state.attached && AddsToZero(u, state.values, state.attached[j], j)
                      then 0 else 1
    {
      var hasZero, left := false, h;
      while left != {}
        invariant left <= h
        invariant forall j :: j in h - left ==> ColumnKnown(state.attached, state.values, j)
        invariant hasZero <==> exists j :: j in h - left && ZeroColumn(u, state.attached, state.values, j)
        decreases |left|
      {
        ghost var some := Pick(left);
        var j :| j in left;
        var sum := SumColumn(j);
        if sum.None? {
          return None;
        }
        if sum.value % u == 0 {
          hasZero := true;
        }
        assert h - (left - {j}) == (h - left) + {j};
        assert ZeroColumn(u, state.attached, state.values, j) <==> sum.value % u == 0;
        left := left - {j};
      }
      assert h - left == h;
      coin := Some(if hasZero then 0 else 1);
      CoinIs(u, state.attached, state.values, h);
    }

    method CheckDecision()
      requires Valid()
      modifies this`state, this`results
      ensures Valid() && state == StepCoin(u, old(state))
      ensures old(state).coin.None? ==> Decides(u, old(state), state.coin)
      ensures results == old(results) + (if old(state).coin.None? && state.coin.Some? then [state.coin.value] else [])
    {
      if state.coin.Some? {
        return;
      }
      DecisionFrom(u, state, 0);
      var a := 0;
      while a < |state.finals|
        invariant 0 <= a <= |state.finals| && state == old(state) && results == old(results)
        invariant Decision(u, state, 0) == Decision(u, state, a)
      {
        var f := state.finals[a];
        if state.myA.Some? && state.myS.Some? {
          var inA := V.IsSubset(f.h, state.myA.value);
          var inS := V.IsSubset(f.s, state.myS.value);
          if inA && inS {
            var coin := Evaluate(f.h);
            if coin.Some? {
              state := state.(coin := coin);
              results := results + [coin.value];
              return;
            }
          }
        }
        a := a + 1;
      }
    }

    method TryAttach()
      requires Valid()
      modifies this`state, this`outbox
      ensures Valid() && state == StepT(n, t, old(state))
      ensures var added := Added(old(state).myT, state.myT);
              outbox == old(outbox) + (if added.Some? then [Attach(added.value)] else [])
      ensures old(state).myT.Some? ==> state == old(state)
      ensures old(state).myT.None? ==>
        var full := set d | d in state.completed && |state.completed[d]| == n;
        if |full| >= n - t then state.myT == Some(full) && outbox == old(outbox) + [Attach(full)]
        else state == old(state) && outbox == old(outbox)
    {
      if state.myT.None? {
        var full := CompleteDealers();
        if |full| >= n - t {
          state := state.(myT := Some(full));
          outbox := outbox + [Attach(full)];
        }
      }
    }

    method TryAccept()
      requires Valid()
      modifies this`state, this`outbox
      ensures Valid() && state == StepA(n, t, old(state))
      ensures var added := Added(old(state).myA, state.myA);
              outbox == old(outbox) + (if added.Some? then [Accept(added.value)] else [])
      ensures old(state).myA.Some? || old(state).myT.None? ==> state == old(state)
      ensures old(state).myA.None? && old(state).myT.Some? ==>
        var a := set j | j in state.attached && state.attached[j] <= old(state).myT.value;
        if |a| >= n - t then state.myA == Some(a) && outbox == old(outbox) + [Accept(a)]
        else state == old(state) && outbox == old(outbox)
    {
      if state.myA.None? {
        if state.myT.Some? {
          var a := Filter(state.attached, state.myT.value);
          if |a| >= n - t {
            state := state.(myA := Some(a));
            outbox := outbox + [Accept(a)];
          }
        }
      }
    }

    method TryReconstruct()
      requires Valid()
      modifies this`state, this`outbox, this`requests
      ensures Valid() && state == StepS(n, t, old(state)) && old(requests) <= requests
      ensures var added := Added(old(state).myS, state.myS);
              && (added.Some? ==>
                    && state.myA.Some?
                    && outbox == old(outbox) + [FinalSets(Final(state.myA.value, added.value))])
              && (added.Some? ==> Requested(requests[|old(requests)|..], state.attached, state.myA.value))
              && (added.None? ==> outbox == old(outbox) && requests == old(requests))
      ensures old(state).myS.Some? || old(state).myA.None? ==> state == old(state)
      ensures old(state).myS.None? && old(state).myA.Some? ==>
        var s := set j | j in state.accepted && state.accepted[j] <= old(state).myA.value;
        if |s| >= n - t then state.myS == Some(s) && outbox == old(outbox) + [FinalSets(Final(old(state).myA.value, s))]
        else state == old(state) && outbox == old(outbox)
    {
      if state.myS.None? {
        if state.myA.Some? {
          var s := Filter(state.accepted, state.myA.value);
          if |s| >= n - t {
            state := state.(myS := Some(s));
            outbox := outbox + [FinalSets(Final(state.myA.value, s))];
            StartReconstruction(state.myA.value);
          }
        }
      }
    }

    /** One pass over all steps. */
    method CheckProgress()
      requires Valid()
      modifies this`state, this`outbox, this`requests, this`results
      ensures Valid() && state == Progress(n, t, u, old(state)) && old(requests) <= requests
      ensures outbox == old(outbox) + Casts(old(state), state)
      ensures results == old(results) + (if old(state).coin.None? && state.coin.Some? then [state.coin.value] else [])
      ensures Added(old(state).myS, state.myS).None? ==> requests == old(requests)
      ensures Added(old(state).myS, state.myS).Some? ==>
        state.myA.Some? && Requested(requests[|old(requests)|..], state.attached, state.myA.value)
    {
      FormSets();
      CheckDecision();
    }

    /** The first three steps. */
    method FormSets()
      requires Valid()
      modifies this`state, this`outbox, this`requests
      ensures Valid() && state == StepS(n, t, StepA(n, t, StepT(n, t, old(state)))) && old(requests) <= requests
      ensures outbox == old(outbox) + Casts(old(state), state)
      ensures Added(old(state).myS, state.myS).None? ==> requests == old(requests)
      ensures Added(old(state).myS, state.myS).Some? ==>
        state.myA.Some? && Requested(requests[|old(requests)|..], state.attached, state.myA.value)
    {
      TryAttach();
      TryAccept();
      TryReconstruct();
    }

    method CountSecret(d: int, i: int)
      requires Valid()
      modifies this`state, this`counts
      ensures Valid() && state == Record(old(state), Shared(d, i))
    {
      ghost var before := SecretsOf(state.completed, d);
      if d !in state.completed {
        state := state.(completed := state.completed[d := {}]);
        counts := counts[d := 0];
      }
      if i !in state.completed[d] {
        state := state.(completed := state.completed[d := state.completed[d] + {i}]);
        counts := counts[d := counts[d] + 1];
      } else {
        assert before + {i} == before;
      }
      assert state.completed == old(state).completed[d := before + {i}];
    }

    /** What a delivery or an IVSS result does: record it, then one pass. */
    method HandleEvent(e: Event)
      requires Valid()
      modifies this
      ensures Valid() && state == Progress(n, t, u, Record(old(state), e))
      ensures Recorded(old(state), e, state)
      ensures outbox == old(outbox) + Casts(Record(old(state), e), state)
      ensures results == old(results) + (if old(state).coin.None? && state.coin.Some? then [state.coin.value] else [])
    {
      match e {
        case Shared(d, i) => CountSecret(d, i);
        case Rebuilt(d, i, v) => state := state.(values := state.values[(d, i) := v]);
        case GotAttach(from, t) => state := state.(attached := state.attached[from := t]);
        case GotAccept(from, a) => state := state.(accepted := state.accepted[from := a]);
        case GotFinal(from, f) => state := state.(finals := state.finals + [f]);
      }
      assert state == Record(old(state), e);
      CheckProgress();
      TablesStay(n, t, u, Record(old(state), e));
    }

    /** A message either delivers something or nothing; a second pass follows. A finished round ignores it. */
    method OnMessage(delivered: Option<Event>)
      requires Valid()
      modifies this
      ensures Valid()
      ensures delivered.Some? ==> state == Handle(n, t, u, old(state), delivered.value)
      ensures delivered.Some? && old(state).coin.None? ==> Recorded(old(state), delivered.value, state)
      ensures delivered.Some? && old(state).coin.None? ==>
        outbox == old(outbox) + Casts(Record(old(state), delivered.value), state)
      ensures delivered.None? && old(state).coin.None? ==>
        state == Progress(n, t, u, old(state)) && outbox == old(outbox) + Casts(old(state), state)
      ensures old(state).coin.Some? ==> state == old(state) && outbox == old(outbox) && results == old(results)
      ensures results == old(results) + (if old(state).coin.None? && state.coin.Some? then [state.coin.value] else [])
    {
      if state.coin.Some? {
        return;
      }
      if delivered.Some? {
        HandleEvent(delivered.value);
        ProgressOnce(n, t, u, Record(old(state), delivered.value));
      }
      TablesStay(n, t, u, state);
      CheckProgress();
    }

    /** Asks for every secret of every column of `a`. */
    method StartReconstruction(a: set<int>)
      modifies this`requests
      ensures old(requests) <= requests && Requested(requests[|old(requests)|..], state.attached, a)
    {
      var base := |requests|;
      var left := a;
      while left != {}
        invariant left <= a && old(requests) <= requests
        invariant Requested(requests[base..], state.attached, a - left)
        decreases |left|
      {
        ghost var some := Pick(left);
        var j :| j in left;
        if j in state.attached {
          var dealers := state.attached[j];
          while dealers != {}
            invariant dealers <= state.attached[j] && old(requests) <= requests
            invariant forall k, i :: (k, i) in requests[base..] <==>
              || (i in a - left && i in state.attached && k in state.attached[i])
              || (i == j && k in state.attached[j] - dealers)
            decreases |dealers|
          {
            ghost var one := Pick(dealers);
            var k :| k in dealers;
            assert (requests + [(k, j)])[base..] == requests[base..] + [(k, j)];
            requests := requests + [(k, j)];
            dealers := dealers - {k};
          }
        }
        left := left - {j};
      }
      assert a - left == a;
    }
  }

  /** The event is in its table and nothing else is new there. */
  ghost predicate Recorded(before: Icc, e: Event, after: Icc) {
    && after.completed == (if !e.Shared? then before.completed
                           else before.completed[e.dealer := (if e.dealer in before.completed
                                                              then before.completed[e.dealer] else {}) + {e.index}])
    && after.values == (if e.Rebuilt? then before.values[(e.dealer, e.index) := e.value] else before.values)
    && after.attached == (if e.GotAttach? then before.attached[e.from := e.t] else before.attached)
    && after.accepted == (if e.GotAccept? then before.accepted[e.from := e.a] else before.accepted)
    && after.finals == (if e.GotFinal? then before.finals + [e.f] else before.finals)
  }

  lemma TablesStay(n: nat, t: nat, u: int, icc: Icc)
    requires u > 0
    ensures SameTables(icc, Progress(n, t, u, icc))
  {
  }

  /** The requests name exactly the secrets of the columns of `a`. */
  ghost predicate Requested(r: seq<(int, int)>, attached: map<int, set<int>>, a: set<int>) {
    forall k, j :: (k, j) in r <==> j in a && j in attached && k in attached[j]
  }
}
