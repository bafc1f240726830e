/** Exactly which knowledge about forged ballots makes the promises of the graded vote hold in every run. */
module VoteExact {
  import opened Quorums
  import opened Vote
  import opened VoteBoard
  import opened VoteRuns
  import opened VoteForger
  import opened VoteRules
  import VoteSentinel
  import opened VoteTheorems

  // ---------------------------------------------------------------- one forger

  lemma BoardJustified(c: Config, es: seq<Event>, s: System)
    requires Reachable(c, es, s)
    ensures OnIds(c, s.board) && JustifiedBy(c, s.board, c.Honest())
  {
    CodeFollowersAreJustified(c, es, s);
  }

  lemma SceneJustified(n: nat, t: nat, ids: set<int>, e: Scene, b: Board)
    requires Set(n, t, ids, e) && b == Board(e.inputs, Votes(ids, e), Revotes(ids, e))
    requires JustifiedBy(One(n, t, ids, e), b, ids - {e.x})
    ensures NoSentinel(b)
    ensures |e.v.members| == n - t && Majority(e.inputs, e.v.members) == 1 ==>
              Votes1Justified(One(n, t, ids, e), b, ids)
    ensures e.r == Ballot(e.clean, 0) ==> RevotesJustified(One(n, t, ids, e), b, ids)
  {
    StaysZero(n, t, ids, e, e.clean);
  }

  /**
   One forger splits the round: everyone who follows the code starts with 0, yet one of them finishes with (0, 2) and
   another with nothing.
   */
  lemma ForgerSplits(n: nat, t: nat, ids: set<int>)
    returns (byz: set<int>, es: seq<Event>, s: System, i: int, k: int)
    requires |ids| == n && n > 3 * t && t >= 1
    ensures Reachable(Config(n, t, ids, byz), es, s) && HonestInputs(Config(n, t, ids, byz), s.board, 0)
    ensures Finished(Config(n, t, ids, byz), s, i, Outcome(0, 2))
    ensures Finished(Config(n, t, ids, byz), s, k, Outcome(-1, 0))
  {
    var e := ZeroScene(n, t, ids, t, Some(Ballot({}, 1)));
    es := Performed(n, t, ids, e);
    i, k := Bystanders(n, t, ids, e);
    FinishesWith(n, t, ids, e, i);
    FinishesWith(n, t, ids, e, k);
    byz, s := {e.x}, Curtain(n, t, ids, e);
  }

  /** A forged REVOTE beside justified VOTE1s is enough to split it. */
  lemma RevoteSplits(n: nat, t: nat, ids: set<int>)
    returns (byz: set<int>, es: seq<Event>, s: System, i: int, k: int)
    requires |ids| == n && n > 3 * t && t >= 1
    ensures Pair(Config(n, t, ids, byz), Rules(true, false, false), es, s, i, Outcome(0, 2), k, Outcome(-1, 0))
  {
    var e := RevoteScene(n, t, ids);
    es := Performed(n, t, ids, e);
    i, k := Bystanders(n, t, ids, e);
    FinishesWith(n, t, ids, e, i);
    FinishesWith(n, t, ids, e, k);
    byz, s := {e.x}, Curtain(n, t, ids, e);
    CodeFollowersAreJustified(Config(n, t, ids, byz), es, s);
    SceneJustified(n, t, ids, e, s.board);
  }

  /** A forged VOTE1 beside justified REVOTEs takes the grade 2 from unanimous inputs. */
  lemma VoteWeakens(n: nat, t: nat, ids: set<int>)
    returns (byz: set<int>, es: seq<Event>, s: System, k: int)
    requires |ids| == n && n > 3 * t && t >= 1
    ensures Pair(Config(n, t, ids, byz), Rules(false, true, false), es, s, k, Outcome(0, 1), k, Outcome(0, 1))
    ensures HonestInputs(Config(n, t, ids, byz), s.board, 0)
  {
    var e := ZeroScene(n, t, ids, t, None);
    es := Performed(n, t, ids, e);
    var i;
    i, k := Bystanders(n, t, ids, e);
    FinishesWith(n, t, ids, e, k);
    byz, s := {e.x}, Curtain(n, t, ids, e);
    CodeFollowersAreJustified(Config(n, t, ids, byz), es, s);
    SceneJustified(n, t, ids, e, s.board);
  }

  // --------------------------------------------------------------------- sentinels

  /** With `3t < n < 5t` VOTE1s of -1 split graded outcomes, although all REVOTEs are justified. */
  lemma SentinelSplits(n: nat, t: nat, ids: set<int>)
    returns (byz: set<int>, es: seq<Event>, s: System, i: int, k: int)
    requires |ids| == n && 3 * t < n < 5 * t
    ensures Pair(Config(n, t, ids, byz), Rules(false, true, true), es, s, i, Outcome(0, 2), k, Outcome(1, 1))
  {
    var e := VoteSentinel.MakeCast(n, t, ids);
    es := VoteSentinel.Performed(n, t, ids, e);
    byz, s, i, k := e.byz, VoteSentinel.Curtain(n, t, ids, e), e.first, e.k;
    VoteSentinel.Split(n, t, ids, e);
    VoteSentinel.RevotesAre(n, t, ids, e, s.board);
  }

  // ---------------------------------------------------------------------- exactness

  /** A pair under stricter rules is a pair under looser ones. */
  lemma Loosen(c: Config, r: Rules, r': Rules, es: seq<Event>, s: System, i: int, o: Outcome, k: int, o': Outcome)
    requires Pair(c, r, es, s, i, o, k, o')
    requires (r'.votes1 ==> r.votes1) && (r'.revotes ==> r.revotes) && (r.sentinel ==> r'.sentinel)
    ensures Pair(c, r', es, s, i, o, k, o')
  {
  }

  /** Graded values agree in every run exactly when VOTE1s are justified, or carry no -1, or `n >= 5t`. */
  lemma ValuesSafeExactly(n: nat, t: nat, ids: set<int>, r: Rules)
    requires |ids| == n && n > 3 * t
    ensures ValuesSafe(n, t, ids, r) <==> r.votes1 || !r.sentinel || n >= 5 * t
  {
    if r.votes1 || !r.sentinel || n >= 5 * t {
      forall byz: set<int>, es: seq<Event>, s: System, i: int, o: Outcome, k: int, o': Outcome |
        Pair(Config(n, t, ids, byz), r, es, s, i, o, k, o') && o.conf >= 1 && o'.conf >= 1
      {
        ValuesKept(Config(n, t, ids, byz), r, es, s, i, o, k, o');
      }
    } else {
      var byz, es, s, i, k := SentinelSplits(n, t, ids);
      Loosen(Config(n, t, ids, byz), Rules(false, true, true), r, es, s, i, Outcome(0, 2), k, Outcome(1, 1));
    }
  }

  /** Who can split a grade 2 outcome when the condition for grading fails. */
  lemma GradingFails(n: nat, t: nat, ids: set<int>, r: Rules)
    requires |ids| == n && n > 3 * t && t >= 1 && !(r.revotes && (r.votes1 || !r.sentinel || n >= 5 * t))
    ensures !GradingSafe(n, t, ids, r)
  {
    if !r.revotes {
      var byz, es, s, i, k := RevoteSplits(n, t, ids);
      Loosen(Config(n, t, ids, byz), Rules(true, false, false), r, es, s, i, Outcome(0, 2), k, Outcome(-1, 0));
    } else {
      var byz, es, s, i, k := SentinelSplits(n, t, ids);
      Loosen(Config(n, t, ids, byz), Rules(false, true, true), r, es, s, i, Outcome(0, 2), k, Outcome(1, 1));
    }
  }

  /**
   A grade 2 outcome settles the round in every run exactly when no node can be faulty, or REVOTEs are justified and
   VOTE1s are justified, or carry no -1, or `n >= 5t`.
   */
  lemma GradingSafeExactly(n: nat, t: nat, ids: set<int>, r: Rules)
    requires |ids| == n && n > 3 * t
    ensures GradingSafe(n, t, ids, r) <==> t == 0 || (r.revotes && (r.votes1 || !r.sentinel || n >= 5 * t))
  {
    if t == 0 || (r.revotes && (r.votes1 || !r.sentinel || n >= 5 * t)) {
      forall byz: set<int>, es: seq<Event>, s: System, i: int, o: Outcome, k: int, o': Outcome |
        Pair(Config(n, t, ids, byz), r, es, s, i, o, k, o') && o.conf == 2
      {
        GradingKept(Config(n, t, ids, byz), r, es, s, i, o, k, o');
      }
    } else {
      GradingFails(n, t, ids, r);
    }
  }

  /** Unanimous inputs win in every run exactly when no node can be faulty or VOTE1s are justified. */
  lemma ValiditySafeExactly(n: nat, t: nat, ids: set<int>, r: Rules)
    requires |ids| == n && n > 3 * t
    ensures ValiditySafe(n, t, ids, r) <==> t == 0 || r.votes1
  {
    if t == 0 || r.votes1 {
      forall byz: set<int>, es: seq<Event>, s: System, i: int, o: Outcome, v: int |
        && Pair(Config(n, t, ids, byz), r, es, s, i, o, i, o) && (v == 0 || v == 1)
        && HonestInputs(Config(n, t, ids, byz), s.board, v)
      {
        ValidityKept(Config(n, t, ids, byz), r, es, s, i, o, v);
      }
    } else {
      var byz, es, s, k := VoteWeakens(n, t, ids);
      Loosen(Config(n, t, ids, byz), Rules(false, true, false), r, es, s, k, Outcome(0, 1), k, Outcome(0, 1));
    }
  }
}
