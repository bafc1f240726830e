/** Exactly which knowledge about forged ballots makes agreement and validity of the loop hold in every run. */
module ABAExact {
  import opened Quorums
  import opened Vote
  import opened VoteBoard
  import P = VoteScript
  import F = VoteForger
  import S = VoteSentinel
  import opened VoteExact
  import opened ABA
  import opened ABARuns
  import opened ABATheorems
  import opened ABAScript
  import opened ABASplit

  /** A node that follows the code sends the result `v` in a run whose ballots keep the rules. */
  ghost predicate Yields(c: Config, rules: Rules, estimates: map<int, int>, es: seq<Event>, s: System, i: int, v: int) {
    Reachable(c, estimates, es, s) && s.rules == rules && i in c.Honest() && i in s.nodes && v in s.nodes[i].results
  }

  /** In every run all results are equal. */
  ghost predicate OneResult(n: nat, t: nat, ids: set<int>, rules: Rules) {
    forall byz, estimates, es, s, i, j, v, w ::
      && Yields(Config(n, t, ids, byz), rules, estimates, es, s, i, v)
      && Yields(Config(n, t, ids, byz), rules, estimates, es, s, j, w)
      ==> v == w
  }

  ghost predicate StartWith(c: Config, estimates: map<int, int>, v: int) {
    (v == 0 || v == 1) && forall i :: i in c.Honest() && i in estimates ==> estimates[i] == v
  }

  /** In every run in which all nodes that follow the code start with one bit, all results are that bit. */
  ghost predicate RightResult(n: nat, t: nat, ids: set<int>, rules: Rules) {
    forall byz, estimates, es, s, i, v, w ::
      StartWith(Config(n, t, ids, byz), estimates, v) && Yields(Config(n, t, ids, byz), rules, estimates, es, s, i, w)
      ==> w == v
  }

  // ----------------------------------------------------------------- hearing results

  lemma EnoughOnes(c: Config, z: set<int>) returns (who: set<int>)
    requires c.Valid() && z <= c.Honest() && |z| <= c.t && c.t >= 1
    ensures who <= c.Honest() - z && |who| == c.t + 1
  {
    HonestCount(c);
    DifferenceCount(c.Honest(), z);
    who := TakeBetween({}, c.Honest() - z, c.t + 1);
  }

  lemma EnoughZeros(c: Config, z: set<int>) returns (who: set<int>)
    requires c.Valid() && z <= c.Honest() && |z| + |c.byz| >= c.t + 1
    ensures who <= z + c.byz && |who| == c.t + 1
  {
    assert |z + c.byz| == |z| + |c.byz|;
    who := TakeBetween({}, z + c.byz, c.t + 1);
  }

  /** A node that hears `t + 1` COMPLETEs for `v` sends the result `v`. */
  lemma Decides(c: Config, s0: System, s: System, u: int, v: int, who: set<int>) returns (s': System)
    requires Reaches(c, s0, s) && u in c.Honest() && u in s.nodes && Quiet(s.nodes[u], true) && |who| == c.t + 1
    requires forall j :: j in who ==> j in s.completes && s.completes[j] == v
    ensures Reaches(c, s0, s') && s'.rules == s.rules && s'.completes == s.completes && s'.nodes.Keys == s.nodes.Keys
    ensures u in s'.nodes && v in s'.nodes[u].results
    ensures forall i :: i in s.nodes && i != u ==> s'.nodes[i] == s.nodes[i]
  {
    Hears(c, s, u, v, who);
    s' := s.(nodes := s.nodes[u := Told(c.t, s.nodes[u], v, who)]);
    GoesOn(c, s0, s, s');
    assert Told(c.t, s.nodes[u], v, who).results == [v];
  }

  /** From a first round that sets everybody free to go on with 1: the result 1. */
  lemma ResultOne(c: Config, rules: Rules, sc: P.Script, z: set<int>) returns (es: seq<Event>, s: System, w: int)
    requires P.Fits(c, sc) && Obeys(c, P.BoardOf(sc), rules) && Splits(c, sc, z) && |z| <= c.t && c.t >= 1
    ensures Yields(c, rules, sc.inputs, es, s, w, 1)
  {
    var s0 := TwoRounds(c, rules, sc, z);
    var who := EnoughOnes(c, z);
    w := Pick(who);
    s := Decides(c, Init(c, rules, sc.inputs), s0, w, 1, who);
    es :| Leads(c, Init(c, rules, sc.inputs), es, s);
  }

  /** Two different results, if the nodes with (0, 2) and the faulty ones are more than `t`. */
  lemma BothResults(c: Config, rules: Rules, sc: P.Script, z: set<int>)
    returns (es: seq<Event>, s: System, u: int, w: int)
    requires P.Fits(c, sc) && Obeys(c, P.BoardOf(sc), rules) && Splits(c, sc, z) && |z| <= c.t && c.t >= 1
    requires |z| + |c.byz| >= c.t + 1
    ensures Yields(c, rules, sc.inputs, es, s, u, 0) && Yields(c, rules, sc.inputs, es, s, w, 1)
  {
    var init := Init(c, rules, sc.inputs);
    var s0 := TwoRounds(c, rules, sc, z);
    FaultySpeak(c, s0, c.byz);
    var s1 := s0.(completes := AndZero(s0.completes, c.byz));
    GoesOn(c, init, s0, s1);
    s, u, w := HearBoth(c, init, s1, z);
    es :| Leads(c, init, es, s);
  }

  lemma TwoHonest(c: Config) returns (u: int, w: int)
    requires c.Valid() && c.t >= 1
    ensures u in c.Honest() && w in c.Honest() && u != w
  {
    HonestCount(c);
    w := Pick(c.Honest());
    u := MemberOutside(c.Honest(), {w});
  }

  lemma HearBoth(c: Config, s0: System, s1: System, z: set<int>) returns (s: System, u: int, w: int)
    requires c.Valid() && z <= c.Honest() && |z| <= c.t && c.t >= 1 && |z| + |c.byz| >= c.t + 1
    requires Reaches(c, s0, s1) && Ripe(c, s1, AndZero(Words(c, z), c.byz))
    ensures Reaches(c, s0, s) && s.rules == s1.rules && u in c.Honest() && w in c.Honest()
    ensures u in s.nodes && w in s.nodes && 0 in s.nodes[u].results && 1 in s.nodes[w].results
  {
    var zeros := EnoughZeros(c, z);
    var ones := EnoughOnes(c, z);
    u, w := TwoHonest(c);
    var s2 := Decides(c, s0, s1, u, 0, zeros);
    s := Decides(c, s0, s2, w, 1, ones);
  }

  // --------------------------------------------------------------------- the scenes

  lemma ForgerOut(n: nat, t: nat, ids: set<int>, e: F.Scene, i: int)
    requires F.Set(n, t, ids, e) && e.r.bit == 1 && i in ids - {e.x} && P.Fits(F.One(n, t, ids, e), F.Act(ids, e))
    ensures Outs(F.One(n, t, ids, e), F.Act(ids, e))[i] == if i in e.z then Outcome(0, 2) else Outcome(-1, 0)
  {
    F.Outcomes(n, t, ids, e);
    F.ActParts(ids, e, i);
  }

  lemma ForgerOuts(n: nat, t: nat, ids: set<int>, e: F.Scene)
    requires F.Set(n, t, ids, e) && e.r.bit == 1
    ensures P.Fits(F.One(n, t, ids, e), F.Act(ids, e)) && Splits(F.One(n, t, ids, e), F.Act(ids, e), e.z)
  {
    F.ActFits(n, t, ids, e);
    var outs := Outs(F.One(n, t, ids, e), F.Act(ids, e));
    forall i | i in outs ensures outs[i] == if i in e.z then Outcome(0, 2) else Outcome(-1, 0) {
      ForgerOut(n, t, ids, e, i);
    }
  }

  /** The scene with sentinels, as far as it matters here. */
  ghost predicate Sentinels(n: nat, t: nat, ids: set<int>, e: S.Cast) {
    && P.Fits(Config(n, t, ids, e.byz), S.Act(ids, e)) && e.first in ids - e.byz && |e.byz| == t
    && RevotesJustified(Config(n, t, ids, e.byz), P.BoardOf(S.Act(ids, e)), ids)
    && Decide(S.Votes(ids, e), S.Revotes(ids, e), e.byz + e.zeros, e.tail) == Outcome(0, 2)
    && Decide(S.Votes(ids, e), S.Revotes(ids, e), e.mixed, e.tail) == Outcome(1, 1)
  }

  lemma MakeSentinels(n: nat, t: nat, ids: set<int>) returns (e: S.Cast)
    requires |ids| == n && 3 * t < n < 5 * t
    ensures Sentinels(n, t, ids, e)
  {
    e := S.MakeCast(n, t, ids);
    S.ActFits(n, t, ids, e);
    S.Insiders(n, t, ids, e);
    S.FirstDecides(n, t, ids, e);
    S.OthersDecide(n, t, ids, e);
    S.RevotesAre(n, t, ids, e, P.BoardOf(S.Act(ids, e)));
  }

  lemma SentinelOut(c: Config, ids: set<int>, e: S.Cast, i: int, b: set<int>)
    requires P.Fits(c, S.Act(ids, e)) && c.Honest() == ids - e.byz && i in ids - e.byz
    requires b == (if i == e.first then e.byz + e.zeros else e.mixed)
    ensures Outs(c, S.Act(ids, e))[i] == Decide(S.Votes(ids, e), S.Revotes(ids, e), b, e.tail)
  {
    S.ActParts(ids, e, i);
  }

  lemma SentinelOuts(n: nat, t: nat, ids: set<int>, e: S.Cast) returns (z: set<int>)
    requires Sentinels(n, t, ids, e)
    ensures Splits(Config(n, t, ids, e.byz), S.Act(ids, e), z) && |z| == 1
  {
    var c := Config(n, t, ids, e.byz);
    var outs := Outs(c, S.Act(ids, e));
    SentinelOut(c, ids, e, e.first, e.byz + e.zeros);
    forall i | i in outs && i != e.first ensures outs[i] == Outcome(1, 1) {
      SentinelOut(c, ids, e, i, e.mixed);
    }
    z := OneFirst(outs, e.first);
  }

  lemma OneFirst(outs: map<int, Outcome>, first: int) returns (z: set<int>)
    requires first in outs && outs[first] == Outcome(0, 2)
    requires forall i :: i in outs && i != first ==> outs[i] == Outcome(1, 1)
    ensures SplitOuts(outs, z) && z <= outs.Keys && |z| == 1
  {
    z := {first};
  }

  lemma SentinelsObey(n: nat, t: nat, ids: set<int>, e: S.Cast, rules: Rules)
    requires Sentinels(n, t, ids, e) && !rules.votes1 && rules.sentinel
    ensures Obeys(Config(n, t, ids, e.byz), P.BoardOf(S.Act(ids, e)), rules)
  {
  }

  lemma RevoteBoard(n: nat, t: nat, ids: set<int>, e: F.Scene, rules: Rules)
    requires F.Set(n, t, ids, e) && !rules.revotes && P.Fits(F.One(n, t, ids, e), F.Act(ids, e))
    requires rules.votes1 ==> |e.v.members| == n - t && Majority(e.inputs, e.v.members) == 1
    ensures Obeys(F.One(n, t, ids, e), P.BoardOf(F.Act(ids, e)), rules)
  {
    var c, sc := F.One(n, t, ids, e), F.Act(ids, e);
    var es := P.Played(c, sc);
    BoardJustified(c, es, P.End(c, sc));
    SceneJustified(n, t, ids, e, P.BoardOf(sc));
  }

  // ---------------------------------------------------------------------- exactness

  lemma ForgedRevotesSplit(n: nat, t: nat, ids: set<int>, rules: Rules)
    requires |ids| == n && n > 3 * t && t >= 1 && !rules.revotes
    ensures !OneResult(n, t, ids, rules)
  {
    var e := F.RevoteScene(n, t, ids);
    ForgerOuts(n, t, ids, e);
    RevoteBoard(n, t, ids, e, rules);
    var es, s, u, w := BothResults(F.One(n, t, ids, e), rules, F.Act(ids, e), e.z);
  }

  lemma SentinelsSplit(n: nat, t: nat, ids: set<int>, rules: Rules)
    requires |ids| == n && 3 * t < n < 5 * t && !rules.votes1 && rules.sentinel
    ensures !OneResult(n, t, ids, rules)
  {
    var e := MakeSentinels(n, t, ids);
    var z := SentinelOuts(n, t, ids, e);
    SentinelsObey(n, t, ids, e, rules);
    var es, s, u, w := BothResults(Config(n, t, ids, e.byz), rules, S.Act(ids, e), z);
  }

  /**
   All results of a run are equal exactly when no node can be faulty, or REVOTEs are justified and VOTE1s are
   justified, or carry no -1, or `n >= 5t`.
   */
  lemma OneResultExactly(n: nat, t: nat, ids: set<int>, rules: Rules)
    requires |ids| == n && n > 3 * t
    ensures OneResult(n, t, ids, rules) <==>
            t == 0 || (rules.revotes && (rules.votes1 || !rules.sentinel || n >= 5 * t))
  {
    if t == 0 || (rules.revotes && (rules.votes1 || !rules.sentinel || n >= 5 * t)) {
      forall byz, estimates, es, s, i, j, v, w |
        Yields(Config(n, t, ids, byz), rules, estimates, es, s, i, v)
        && Yields(Config(n, t, ids, byz), rules, estimates, es, s, j, w)
      {
        Agreement(Config(n, t, ids, byz), estimates, es, s, i, j, v, w);
      }
    } else if !rules.revotes {
      ForgedRevotesSplit(n, t, ids, rules);
    } else {
      SentinelsSplit(n, t, ids, rules);
    }
  }

  lemma ValidityFails(n: nat, t: nat, ids: set<int>, rules: Rules)
    requires |ids| == n && n > 3 * t && t >= 1 && !rules.votes1 && !rules.revotes
    ensures !RightResult(n, t, ids, rules)
  {
    var e := F.ZeroScene(n, t, ids, 0, Some(Ballot({}, 1)));
    ForgerOuts(n, t, ids, e);
    RevoteBoard(n, t, ids, e, rules);
    var es, s, w := ResultOne(F.One(n, t, ids, e), rules, F.Act(ids, e), e.z);
    assert StartWith(F.One(n, t, ids, e), e.inputs, 0);
  }

  /** Unanimous nodes get their bit exactly when no node can be faulty or one kind of ballot is justified. */
  lemma RightResultExactly(n: nat, t: nat, ids: set<int>, rules: Rules)
    requires |ids| == n && n > 3 * t
    ensures RightResult(n, t, ids, rules) <==> t == 0 || rules.votes1 || rules.revotes
  {
    if t == 0 || rules.votes1 || rules.revotes {
      forall byz, estimates, es, s, i, v, w |
        StartWith(Config(n, t, ids, byz), estimates, v) && Yields(Config(n, t, ids, byz), rules, estimates, es, s, i, w)
      {
        Validity(Config(n, t, ids, byz), estimates, es, s, v, i, w);
      }
    } else {
      ValidityFails(n, t, ids, rules);
    }
  }
}
