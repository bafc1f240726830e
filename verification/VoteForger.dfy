/** Rounds with a single forger: what one VOTE1 and one REVOTE of its own choice can do to the others. */
module VoteForger {
  import opened Quorums
  import opened Vote
  import opened VoteBoard
  import opened VoteRuns
  import opened VoteSchedule
  import opened VoteScript
  import opened VoteTheorems

  /**
   The forger `x` and its ballots `v` and `r`: the nodes of `z` read the VOTE1s of `clean`, the others those of
   `mixed`, and all read the REVOTEs of `mixed`. `zero` is a quorum of INPUTs with majority 0.
   */
  datatype Scene = Scene(x: int, z: set<int>, inputs: map<int, int>, zero: set<int>, v: Ballot, r: Ballot,
                         clean: set<int>, mixed: set<int>)

  ghost predicate Set(n: nat, t: nat, ids: set<int>, e: Scene) {
    && |ids| == n && n > 3 * t && t >= 1 && e.x in ids && e.z <= ids - {e.x}
    && e.inputs.Keys == ids && e.zero <= ids && |e.zero| == n - t && Majority(e.inputs, e.zero) == 0
    && e.v.members <= ids && e.r.members <= ids && e.v.bit == 1
    && e.clean <= ids - {e.x} && |e.clean| == n - t && e.x in e.mixed && e.mixed <= ids && |e.mixed| == n - t
  }

  function One(n: nat, t: nat, ids: set<int>, e: Scene): Config {
    Config(n, t, ids, {e.x})
  }

  ghost function Votes(ids: set<int>, e: Scene): map<int, Ballot> {
    map i | i in ids :: if i == e.x then e.v else Ballot(e.zero, 0)
  }

  ghost function Revotes(ids: set<int>, e: Scene): map<int, Ballot> {
    map i | i in ids :: if i == e.x then e.r else Ballot(if i in e.z then e.clean else e.mixed, 0)
  }

  ghost function Act(ids: set<int>, e: Scene): Script {
    var h := ids - {e.x};
    Script(e.inputs, Votes(ids, e), Revotes(ids, e), TwoWay(h, {}, e.zero, e.zero),
           TwoWay(h, e.z, e.clean, e.mixed), TwoWay(h, {}, e.mixed, e.mixed))
  }

  /** One vote against `n - t - 1` others does not turn a quorum. */
  lemma StaysZero(n: nat, t: nat, ids: set<int>, e: Scene, s: set<int>)
    requires Set(n, t, ids, e) && s <= ids && |s| == n - t
    ensures Majority(Bits(Votes(ids, e)), s) == 0
  {
    SubsetCount(s * {e.x}, {e.x});
    MajorityZero(Bits(Votes(ids, e)), s, {e.x});
  }

  lemma VotesFollow(n: nat, t: nat, ids: set<int>, e: Scene)
    requires Set(n, t, ids, e)
    ensures Follow(ids - {e.x}, Votes(ids, e), TwoWay(ids - {e.x}, {}, e.zero, e.zero), e.inputs)
    ensures Within(Votes(ids, e), ids)
  {
  }

  lemma RevotesFollow(n: nat, t: nat, ids: set<int>, e: Scene)
    requires Set(n, t, ids, e)
    ensures Follow(ids - {e.x}, Revotes(ids, e), TwoWay(ids - {e.x}, e.z, e.clean, e.mixed), Bits(Votes(ids, e)))
    ensures Within(Revotes(ids, e), ids)
  {
    StaysZero(n, t, ids, e, e.clean);
    StaysZero(n, t, ids, e, e.mixed);
  }

  lemma ActFits(n: nat, t: nat, ids: set<int>, e: Scene)
    requires Set(n, t, ids, e)
    ensures Fits(One(n, t, ids, e), Act(ids, e))
  {
    var c := One(n, t, ids, e);
    TwoWayQuorate(c, {}, e.zero, e.zero);
    TwoWayQuorate(c, e.z, e.clean, e.mixed);
    TwoWayQuorate(c, {}, e.mixed, e.mixed);
    VotesFollow(n, t, ids, e);
    RevotesFollow(n, t, ids, e);
  }

  lemma CleanVotes(n: nat, t: nat, ids: set<int>, e: Scene)
    requires Set(n, t, ids, e)
    ensures Common(Votes(ids, e), e.clean) == 0
  {
    var i := Pick(e.clean);
    forall j | j in e.clean ensures BitOf(Votes(ids, e), j) == 0 {
    }
    CommonComplete(Votes(ids, e), e.clean, 0);
  }

  /** The members of `mixed` other than the forger. */
  lemma Another(n: nat, t: nat, ids: set<int>, e: Scene) returns (y: int)
    requires Set(n, t, ids, e)
    ensures y in e.mixed && y != e.x && y in ids
  {
    DifferenceCount(e.mixed, {e.x});
    y := Pick(e.mixed - {e.x});
  }

  lemma SplitVotes(n: nat, t: nat, ids: set<int>, e: Scene)
    requires Set(n, t, ids, e)
    ensures Common(Votes(ids, e), e.mixed) == -1
  {
    var y := Another(n, t, ids, e);
    assert BitOf(Votes(ids, e), e.x) == 1 && BitOf(Votes(ids, e), y) == 0;
    if Common(Votes(ids, e), e.mixed) != -1 {
      CommonSound(Votes(ids, e), e.mixed);
    }
  }

  lemma MixedRevotes(n: nat, t: nat, ids: set<int>, e: Scene)
    requires Set(n, t, ids, e) && (e.r.bit == 0 || e.r.bit == 1)
    ensures Common(Revotes(ids, e), e.mixed) == (if e.r.bit == 0 then 0 else -1)
  {
    var y := Another(n, t, ids, e);
    var votes := Revotes(ids, e);
    assert BitOf(votes, e.x) == e.r.bit && BitOf(votes, y) == 0;
    if e.r.bit == 0 {
      forall j | j in e.mixed ensures BitOf(votes, j) == 0 {
      }
      CommonComplete(votes, e.mixed, 0);
    } else if Common(votes, e.mixed) != -1 {
      CommonSound(votes, e.mixed);
    }
  }

  lemma Outcomes(n: nat, t: nat, ids: set<int>, e: Scene)
    requires Set(n, t, ids, e) && (e.r.bit == 0 || e.r.bit == 1)
    ensures Decide(Votes(ids, e), Revotes(ids, e), e.clean, e.mixed) == Outcome(0, 2)
    ensures Decide(Votes(ids, e), Revotes(ids, e), e.mixed, e.mixed)
      == if e.r.bit == 0 then Outcome(0, 1) else Outcome(-1, 0)
  {
    CleanVotes(n, t, ids, e);
    SplitVotes(n, t, ids, e);
    MixedRevotes(n, t, ids, e);
  }

  ghost function Curtain(n: nat, t: nat, ids: set<int>, e: Scene): System {
    End(One(n, t, ids, e), Act(ids, e))
  }

  lemma ActParts(ids: set<int>, e: Scene, i: int)
    requires i in ids && i != e.x
    ensures i in Act(ids, e).b && Act(ids, e).b[i] == (if i in e.z then e.clean else e.mixed)
    ensures i in Act(ids, e).q && Act(ids, e).q[i] == e.mixed
  {
  }

  lemma FinishedAt(n: nat, t: nat, ids: set<int>, e: Scene, i: int, b: set<int>)
    requires Fits(One(n, t, ids, e), Act(ids, e)) && i in ids && i != e.x
    requires b == (if i in e.z then e.clean else e.mixed)
    ensures Finished(One(n, t, ids, e), Curtain(n, t, ids, e), i, Decide(Votes(ids, e), Revotes(ids, e), b, e.mixed))
  {
    ActParts(ids, e, i);
    EndFinished(One(n, t, ids, e), Act(ids, e), i);
  }

  /** The grade of those who read `mixed` is as the forged REVOTE says. */
  ghost function Muddled(e: Scene): Outcome {
    if e.r.bit == 0 then Outcome(0, 1) else Outcome(-1, 0)
  }

  lemma FinishesWith(n: nat, t: nat, ids: set<int>, e: Scene, i: int)
    requires Set(n, t, ids, e) && (e.r.bit == 0 || e.r.bit == 1) && i in ids && i != e.x
    ensures Finished(One(n, t, ids, e), Curtain(n, t, ids, e), i, if i in e.z then Outcome(0, 2) else Muddled(e))
  {
    ActFits(n, t, ids, e);
    FinishedAt(n, t, ids, e, i, if i in e.z then e.clean else e.mixed);
    Outcomes(n, t, ids, e);
  }

  /** Some run plays the scene. */
  lemma Performed(n: nat, t: nat, ids: set<int>, e: Scene) returns (es: seq<Event>)
    requires Set(n, t, ids, e)
    ensures Reachable(One(n, t, ids, e), es, Curtain(n, t, ids, e))
    ensures Curtain(n, t, ids, e).board == Board(e.inputs, Votes(ids, e), Revotes(ids, e))
  {
    ActFits(n, t, ids, e);
    es := Played(One(n, t, ids, e), Act(ids, e));
  }

  /** One node that read `clean`, and one that did not. */
  lemma Bystanders(n: nat, t: nat, ids: set<int>, e: Scene) returns (i: int, k: int)
    requires Set(n, t, ids, e) && |e.z| == t
    ensures i in ids && i != e.x && i in e.z && k in ids && k != e.x && k !in e.z
  {
    i := Pick(e.z);
    DifferenceCount(ids, {e.x});
    k := MemberOutside(ids - {e.x}, e.z);
  }

  // ------------------------------------------------------------------- three scenes

  lemma Roles(n: nat, t: nat, ids: set<int>, m: nat) returns (x: int, z: set<int>, clean: set<int>, mixed: set<int>)
    requires |ids| == n && n > 3 * t && t >= 1 && m <= t
    ensures x in ids && z <= ids - {x} && |z| == m && clean <= ids - {x} && |clean| == n - t
    ensures x in mixed && mixed <= ids && |mixed| == n - t
  {
    x := Pick(ids);
    DifferenceCount(ids, {x});
    z := TakeBetween({}, ids - {x}, m);
    clean := TakeBetween({}, ids - {x}, n - t);
    mixed := TakeBetween({x}, ids, n - t);
  }

  lemma AllZero(bits: map<int, int>, s: set<int>)
    requires s <= bits.Keys && forall i :: i in s ==> bits[i] == 0
    ensures Majority(bits, s) == 0
  {
    MajorityZero(bits, s, {});
  }

  /** Everyone starts with 0; the forger alone claims a one in its VOTE1, and in its REVOTE if `r` says so. */
  lemma ZeroScene(n: nat, t: nat, ids: set<int>, m: nat, r: Option<Ballot>) returns (e: Scene)
    requires |ids| == n && n > 3 * t && t >= 1 && m <= t
    requires r.Some? ==> r.value.members <= ids
    ensures Set(n, t, ids, e) && |e.z| == m && e.r == (if r.Some? then r.value else Ballot(e.clean, 0))
    ensures forall i :: i in ids ==> e.inputs[i] == 0
  {
    var x, z, clean, mixed := Roles(n, t, ids, m);
    var inputs := map i | i in ids :: 0;
    AllZero(inputs, mixed);
    e := Scene(x, z, inputs, mixed, Ballot({}, 1), if r.Some? then r.value else Ballot(clean, 0), clean, mixed);
  }

  /** `2 * |ones| > n - t` ones and enough zeros: quorums of INPUTs with either majority. */
  lemma EitherMajority(n: nat, t: nat, ids: set<int>)
    returns (inputs: map<int, int>, q0: set<int>, q1: set<int>)
    requires |ids| == n && n > 3 * t && t >= 1
    ensures inputs.Keys == ids && q0 <= ids && q1 <= ids && |q0| == n - t && |q1| == n - t
    ensures Majority(inputs, q0) == 0 && Majority(inputs, q1) == 1
  {
    var ones := TakeBetween({}, ids, (n - t) / 2 + 1);
    var rest := ids - ones;
    assert ids == ones + rest;
    inputs := map i | i in ids :: if i in ones then 1 else 0;
    q1 := TakeBetween(ones, ids, n - t);
    q0 := TakeBetween(rest, ids, n - t);
    MajorityIs(inputs, q1, ones);
    assert q1 * ones == ones;
    MajorityIs(inputs, q0, ones);
    assert q0 == rest + (q0 * ones);
  }

  lemma MajorityIs(bits: map<int, int>, s: set<int>, x: set<int>)
    requires s <= bits.Keys && forall i :: i in s ==> (bits[i] != 0 <==> i in x)
    ensures Majority(bits, s) == (if 2 * |s * x| > |s| then 1 else 0)
  {
    forall i ensures i in Ones(bits, s) <==> i in s * x {
    }
    assert Ones(bits, s) == s * x;
    assert Ones(bits, s) + Zeros(bits, s) == s && Ones(bits, s) !! Zeros(bits, s);
  }

  /** All VOTE1s are justified, the forger's REVOTE is not. */
  lemma RevoteScene(n: nat, t: nat, ids: set<int>) returns (e: Scene)
    requires |ids| == n && n > 3 * t && t >= 1
    ensures Set(n, t, ids, e) && |e.z| == t && e.r == Ballot({}, 1)
    ensures e.v.members <= ids && |e.v.members| == n - t && Majority(e.inputs, e.v.members) == 1
  {
    var x, z, clean, mixed := Roles(n, t, ids, t);
    var inputs, q0, q1 := EitherMajority(n, t, ids);
    e := Scene(x, z, inputs, q0, Ballot(q1, 1), Ballot({}, 1), clean, mixed);
  }
}
