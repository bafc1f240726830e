/**
 Rounds in which forgers put -1 in their VOTE1: the scan for a common bit passes over it, the majority counts it as a
 one.
 */
module VoteSentinel {
  import opened Quorums
  import opened Vote
  import opened VoteBoard
  import opened VoteForger
  import opened VoteRuns
  import opened VoteSchedule
  import opened VoteScript
  import opened VoteTheorems

  /**
   The forgers `byz` have the smallest ids; of the others `zeros` vote 0 and `ones` vote 1, on quorums `q0` and `q1`
   of INPUTs. `first` reads the VOTE1s of the forgers and the zeros, everybody else those of `mixed`, where sentinels
   and ones prevail; all read the REVOTEs of `tail`.
   */
  datatype Cast = Cast(byz: set<int>, zeros: set<int>, ones: set<int>, inputs: map<int, int>, q0: set<int>,
                       q1: set<int>, mixed: set<int>, tail: set<int>, first: int, k: int)

  ghost predicate Sides(n: nat, t: nat, ids: set<int>, e: Cast) {
    && |ids| == n && 3 * t < n < 5 * t
    && e.byz <= ids && |e.byz| == t && (forall i, j :: i in e.byz && j in ids - e.byz ==> i < j)
    && e.zeros !! e.ones && e.zeros + e.ones == ids - e.byz && |e.zeros| == n - 2 * t && |e.ones| == t
  }

  ghost predicate Set(n: nat, t: nat, ids: set<int>, e: Cast) {
    && Sides(n, t, ids, e)
    && e.inputs.Keys == ids && e.q0 <= ids && e.q1 <= ids && |e.q0| == n - t && |e.q1| == n - t
    && Majority(e.inputs, e.q0) == 0 && Majority(e.inputs, e.q1) == 1
    && e.byz + e.ones <= e.mixed <= ids && |e.mixed| == n - t
    && e.first in e.zeros && e.k in e.ones && e.tail <= ids - {e.first} && |e.tail| == n - t
  }

  ghost function Votes(ids: set<int>, e: Cast): map<int, Ballot> {
    map i | i in ids :: if i in e.byz then Ballot({}, -1) else if i in e.zeros then Ballot(e.q0, 0) else Ballot(e.q1, 1)
  }

  ghost function Revotes(ids: set<int>, e: Cast): map<int, Ballot> {
    map i | i in ids :: if i == e.first then Ballot(e.byz + e.zeros, 0) else Ballot(e.mixed, 1)
  }

  ghost function Act(ids: set<int>, e: Cast): Script {
    var h := ids - e.byz;
    Script(e.inputs, Votes(ids, e), Revotes(ids, e), TwoWay(h, e.zeros, e.q0, e.q1),
           TwoWay(h, {e.first}, e.byz + e.zeros, e.mixed), TwoWay(h, {}, e.tail, e.tail))
  }

  /** The `k` smallest members. */
  lemma {:induction false} TakeLow(s: set<int>, k: nat) returns (low: set<int>)
    requires k <= |s|
    ensures low <= s && |low| == k && forall i, j :: i in low && j in s - low ==> i < j
    decreases k
  {
    if k == 0 {
      low := {};
    } else {
      var before := TakeLow(s, k - 1);
      DifferenceCount(s, before);
      var next := Least(s - before);
      low := before + {next};
      forall i, j | i in low && j in s - low ensures i < j {
        assert j in s - before;
        if i == next {
          assert next <= j && next != j;
        }
      }
    }
  }

  lemma MakeSides(n: nat, t: nat, ids: set<int>) returns (byz: set<int>, zeros: set<int>, ones: set<int>)
    requires |ids| == n && 3 * t < n < 5 * t
    ensures byz <= ids && |byz| == t && (forall i, j :: i in byz && j in ids - byz ==> i < j)
    ensures zeros !! ones && zeros + ones == ids - byz && |zeros| == n - 2 * t && |ones| == t
  {
    byz := TakeLow(ids, t);
    assert ids == byz + (ids - byz);
    zeros := TakeBetween({}, ids - byz, n - 2 * t);
    ones := ids - byz - zeros;
    assert ids - byz == zeros + ones;
  }

  lemma MakeCast(n: nat, t: nat, ids: set<int>) returns (e: Cast)
    requires |ids| == n && 3 * t < n < 5 * t
    ensures Set(n, t, ids, e)
  {
    var byz, zeros, ones := MakeSides(n, t, ids);
    var inputs, q0, q1 := EitherMajority(n, t, ids);
    assert |byz + ones| == 2 * t;
    var mixed := TakeBetween(byz + ones, ids, n - t);
    var first := Pick(zeros);
    var k := Pick(ones);
    DifferenceCount(ids, {first});
    var tail := TakeBetween({}, ids - {first}, n - t);
    e := Cast(byz, zeros, ones, inputs, q0, q1, mixed, tail, first, k);
  }

  lemma VoteMajorities(n: nat, t: nat, ids: set<int>, e: Cast)
    requires Set(n, t, ids, e)
    ensures Majority(Bits(Votes(ids, e)), e.mixed) == 1 && Majority(Bits(Votes(ids, e)), e.byz + e.zeros) == 0
  {
    var bits, ones := Bits(Votes(ids, e)), e.byz + e.ones;
    assert e.mixed * ones == ones && |ones| == 2 * t;
    MajorityIs(bits, e.mixed, ones);
    assert (e.byz + e.zeros) * ones == e.byz && |e.byz + e.zeros| == n - t;
    MajorityIs(bits, e.byz + e.zeros, ones);
  }

  lemma VotesFollow(n: nat, t: nat, ids: set<int>, e: Cast)
    requires Set(n, t, ids, e)
    ensures Follow(ids - e.byz, Votes(ids, e), TwoWay(ids - e.byz, e.zeros, e.q0, e.q1), e.inputs)
    ensures Within(Votes(ids, e), ids)
  {
  }

  lemma RevotesFollow(n: nat, t: nat, ids: set<int>, e: Cast)
    requires Set(n, t, ids, e)
    ensures Follow(ids - e.byz, Revotes(ids, e), TwoWay(ids - e.byz, {e.first}, e.byz + e.zeros, e.mixed),
                   Bits(Votes(ids, e)))
    ensures Within(Revotes(ids, e), ids)
  {
    VoteMajorities(n, t, ids, e);
    assert e.byz + e.zeros <= ids;
  }

  lemma ActFits(n: nat, t: nat, ids: set<int>, e: Cast)
    requires Set(n, t, ids, e)
    ensures Fits(Config(n, t, ids, e.byz), Act(ids, e))
  {
    ActQuorate(n, t, ids, e);
    VotesFollow(n, t, ids, e);
    RevotesFollow(n, t, ids, e);
  }

  lemma ActQuorate(n: nat, t: nat, ids: set<int>, e: Cast)
    requires Set(n, t, ids, e)
    ensures var c, act := Config(n, t, ids, e.byz), Act(ids, e);
            Quorate(c, act.a) && Quorate(c, act.b) && Quorate(c, act.q)
  {
    var c := Config(n, t, ids, e.byz);
    assert |e.byz + e.zeros| == n - t && e.byz + e.zeros <= ids;
    TwoWayQuorate(c, e.zeros, e.q0, e.q1);
    TwoWayQuorate(c, {e.first}, e.byz + e.zeros, e.mixed);
    TwoWayQuorate(c, {}, e.tail, e.tail);
  }

  // ------------------------------------------------------------------ what is decided

  /** Sentinels in front are passed over. */
  lemma {:induction false} AgreedPastSentinels(bits: seq<int>)
    requires bits != [] && bits[|bits| - 1] == 0 && forall k :: 0 <= k < |bits| ==> bits[k] == 0 || bits[k] == -1
    requires forall k, l :: 0 <= k < l < |bits| && bits[k] == 0 ==> bits[l] == 0
    ensures Agreed(-1, bits) == 0
  {
    if bits[0] == 0 {
      AgreedComplete(-1, bits, 0);
    } else {
      AgreedPastSentinels(bits[1..]);
    }
  }

  /** In increasing order all of `low` come before all of `high`. */
  lemma HighLast(js: seq<int>, low: set<int>, high: set<int>)
    requires high != {} && (forall i, j :: i in low && j in high ==> i < j)
    requires (forall x :: x in js <==> x in low + high) && forall k, l :: 0 <= k < l < |js| ==> js[k] < js[l]
    ensures js != [] && js[|js| - 1] in high
    ensures forall k, l :: 0 <= k < l < |js| && js[k] in high ==> js[l] in high
  {
    var h := Pick(high);
    assert h in js;
    var a :| 0 <= a < |js| && js[a] == h;
    forall k, l | 0 <= k < l < |js| && js[k] in high ensures js[l] in high {
      assert js[l] in low + high;
    }
  }

  lemma CommonPastSentinels(votes: map<int, Ballot>, low: set<int>, high: set<int>)
    requires low + high <= votes.Keys && high != {} && forall i, j :: i in low && j in high ==> i < j
    requires forall i :: i in low ==> votes[i].bit == -1
    requires forall j :: j in high ==> votes[j].bit == 0
    ensures Common(votes, low + high) == 0
  {
    var js := Sorted(low + high);
    var bits := BitList(votes, js);
    HighLast(js, low, high);
    BitsOfSides(votes, low, high, js, bits);
    AgreedInOrder(js, high, bits);
  }

  lemma AgreedInOrder(js: seq<int>, high: set<int>, bits: seq<int>)
    requires js != [] && |bits| == |js| && js[|js| - 1] in high
    requires forall k, l :: 0 <= k < l < |js| && js[k] in high ==> js[l] in high
    requires forall k :: 0 <= k < |bits| ==> (bits[k] == 0 <==> js[k] in high) && (bits[k] == 0 || bits[k] == -1)
    ensures Agreed(-1, bits) == 0
  {
    forall k, l | 0 <= k < l < |bits| && bits[k] == 0 ensures bits[l] == 0 {
      assert js[k] in high;
    }
    AgreedPastSentinels(bits);
  }

  lemma BitsOfSides(votes: map<int, Ballot>, low: set<int>, high: set<int>, js: seq<int>, bits: seq<int>)
    requires low + high <= votes.Keys && |bits| == |js|
    requires (forall i :: i in low ==> votes[i].bit == -1) && (forall j :: j in high ==> votes[j].bit == 0)
    requires forall k :: 0 <= k < |js| ==> js[k] in low + high && bits[k] == BitOf(votes, js[k])
    ensures forall k :: 0 <= k < |bits| ==> (bits[k] == 0 <==> js[k] in high) && (bits[k] == 0 || bits[k] == -1)
  {
    forall k | 0 <= k < |bits| ensures (bits[k] == 0 <==> js[k] in high) && (bits[k] == 0 || bits[k] == -1) {
      assert js[k] in low + high;
    }
  }

  lemma FirstDecides(n: nat, t: nat, ids: set<int>, e: Cast)
    requires Set(n, t, ids, e)
    ensures Decide(Votes(ids, e), Revotes(ids, e), e.byz + e.zeros, e.tail) == Outcome(0, 2)
  {
    CommonPastSentinels(Votes(ids, e), e.byz, e.zeros);
  }

  lemma MixedNotCommon(n: nat, t: nat, ids: set<int>, e: Cast)
    requires Set(n, t, ids, e)
    ensures Common(Votes(ids, e), e.mixed) == -1
  {
    var z := ZeroInMixed(n, t, ids, e);
    assert BitOf(Votes(ids, e), z) == 0 && BitOf(Votes(ids, e), e.k) == 1;
    if Common(Votes(ids, e), e.mixed) != -1 {
      CommonSound(Votes(ids, e), e.mixed);
    }
  }

  lemma ZeroInMixed(n: nat, t: nat, ids: set<int>, e: Cast) returns (z: int)
    requires Set(n, t, ids, e)
    ensures z in e.mixed && z in e.zeros
  {
    assert |e.byz + e.ones| == 2 * t;
    DifferenceCount(e.mixed, e.byz + e.ones);
    z := Pick(e.mixed - (e.byz + e.ones));
    assert z in ids - e.byz;
    assert z in e.zeros + e.ones;
  }

  lemma TailIsOnes(n: nat, t: nat, ids: set<int>, e: Cast)
    requires Set(n, t, ids, e)
    ensures Common(Revotes(ids, e), e.tail) == 1
  {
    var y := Pick(e.tail);
    forall j | j in e.tail ensures BitOf(Revotes(ids, e), j) == 1 {
    }
    CommonComplete(Revotes(ids, e), e.tail, 1);
  }

  lemma OthersDecide(n: nat, t: nat, ids: set<int>, e: Cast)
    requires Set(n, t, ids, e)
    ensures Decide(Votes(ids, e), Revotes(ids, e), e.mixed, e.tail) == Outcome(1, 1)
  {
    MixedNotCommon(n, t, ids, e);
    TailIsOnes(n, t, ids, e);
  }

  // ------------------------------------------------------------------------- the run

  ghost function Curtain(n: nat, t: nat, ids: set<int>, e: Cast): System {
    End(Config(n, t, ids, e.byz), Act(ids, e))
  }

  lemma ActParts(ids: set<int>, e: Cast, i: int)
    requires i in ids - e.byz
    ensures i in Act(ids, e).b && Act(ids, e).b[i] == (if i == e.first then e.byz + e.zeros else e.mixed)
    ensures i in Act(ids, e).q && Act(ids, e).q[i] == e.tail
  {
  }

  lemma FinishedAt(n: nat, t: nat, ids: set<int>, e: Cast, i: int, b: set<int>)
    requires Fits(Config(n, t, ids, e.byz), Act(ids, e)) && i in ids - e.byz
    requires b == (if i == e.first then e.byz + e.zeros else e.mixed)
    ensures Finished(Config(n, t, ids, e.byz), Curtain(n, t, ids, e), i,
                     Decide(Votes(ids, e), Revotes(ids, e), b, e.tail))
  {
    ActParts(ids, e, i);
    EndFinished(Config(n, t, ids, e.byz), Act(ids, e), i);
  }

  lemma Performed(n: nat, t: nat, ids: set<int>, e: Cast) returns (es: seq<Event>)
    requires Set(n, t, ids, e)
    ensures Reachable(Config(n, t, ids, e.byz), es, Curtain(n, t, ids, e))
    ensures Curtain(n, t, ids, e).board == Board(e.inputs, Votes(ids, e), Revotes(ids, e))
  {
    ActFits(n, t, ids, e);
    es := Played(Config(n, t, ids, e.byz), Act(ids, e));
  }

  lemma Split(n: nat, t: nat, ids: set<int>, e: Cast)
    requires Set(n, t, ids, e)
    ensures Finished(Config(n, t, ids, e.byz), Curtain(n, t, ids, e), e.first, Outcome(0, 2))
    ensures Finished(Config(n, t, ids, e.byz), Curtain(n, t, ids, e), e.k, Outcome(1, 1))
  {
    ActFits(n, t, ids, e);
    Insiders(n, t, ids, e);
    FirstFinishes(n, t, ids, e);
    OtherFinishes(n, t, ids, e);
  }

  lemma FirstFinishes(n: nat, t: nat, ids: set<int>, e: Cast)
    requires Set(n, t, ids, e) && Fits(Config(n, t, ids, e.byz), Act(ids, e)) && e.first in ids - e.byz
    ensures Finished(Config(n, t, ids, e.byz), Curtain(n, t, ids, e), e.first, Outcome(0, 2))
  {
    FinishedAt(n, t, ids, e, e.first, e.byz + e.zeros);
    FirstDecides(n, t, ids, e);
  }

  lemma OtherFinishes(n: nat, t: nat, ids: set<int>, e: Cast)
    requires Set(n, t, ids, e) && Fits(Config(n, t, ids, e.byz), Act(ids, e)) && e.k in ids - e.byz && e.k != e.first
    ensures Finished(Config(n, t, ids, e.byz), Curtain(n, t, ids, e), e.k, Outcome(1, 1))
  {
    FinishedAt(n, t, ids, e, e.k, e.mixed);
    OthersDecide(n, t, ids, e);
  }

  lemma Insiders(n: nat, t: nat, ids: set<int>, e: Cast)
    requires Set(n, t, ids, e)
    ensures e.first in ids - e.byz && e.k in ids - e.byz && e.first != e.k
  {
    assert e.first in e.zeros + e.ones && e.k in e.zeros + e.ones;
  }

  /** Every REVOTE of the scene is justified. */
  lemma RevotesAre(n: nat, t: nat, ids: set<int>, e: Cast, b: Board)
    requires Set(n, t, ids, e) && b == Board(e.inputs, Votes(ids, e), Revotes(ids, e))
    ensures RevotesJustified(Config(n, t, ids, e.byz), b, ids)
  {
    VoteMajorities(n, t, ids, e);
    assert |e.byz + e.zeros| == n - t;
  }
}
