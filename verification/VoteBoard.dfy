/**
 The graded vote seen from above. A-Cast turns each round into a board on which every origin writes at
 most one INPUT, one VOTE1 and one REVOTE; nodes differ only in how much of it they have read.
 */
module VoteBoard {
  import opened Quorums
  import opened Vote

  datatype Board = Board(inputs: map<int, int>, vote1: map<int, Ballot>, revote: map<int, Ballot>)

  ghost predicate OnIds(c: Config, b: Board) {
    b.inputs.Keys <= c.ids && b.vote1.Keys <= c.ids && b.revote.Keys <= c.ids
  }

  /** The VOTE1 of `j` names a quorum of INPUTs and carries their majority. */
  ghost predicate Justified1(c: Config, b: Board, j: int) {
    && j in b.vote1
    && b.vote1[j].members <= b.inputs.Keys
    && |b.vote1[j].members| >= c.n - c.t
    && b.vote1[j].bit == Majority(b.inputs, b.vote1[j].members)
  }

  /** The REVOTE of `j` names a quorum of VOTE1s and carries their majority. */
  ghost predicate Justified2(c: Config, b: Board, j: int) {
    && j in b.revote
    && b.revote[j].members <= b.vote1.Keys
    && |b.revote[j].members| >= c.n - c.t
    && b.revote[j].bit == Majority(Bits(b.vote1), b.revote[j].members)
  }

  ghost predicate Votes1Justified(c: Config, b: Board, who: set<int>) {
    forall j :: j in who && j in b.vote1 ==> Justified1(c, b, j)
  }

  ghost predicate RevotesJustified(c: Config, b: Board, who: set<int>) {
    forall j :: j in who && j in b.revote ==> Justified2(c, b, j)
  }

  ghost predicate JustifiedBy(c: Config, b: Board, who: set<int>) {
    Votes1Justified(c, b, who) && RevotesJustified(c, b, who)
  }

  /** No VOTE1 carries the value -1, which the scan for a common bit passes over. */
  ghost predicate NoSentinel(b: Board) {
    forall j :: j in b.vote1 ==> b.vote1[j].bit != -1
  }

  /** What is known of all ballots cast: VOTE1s justified, REVOTEs justified, and whether a VOTE1 may carry -1. */
  datatype Rules = Rules(votes1: bool, revotes: bool, sentinel: bool)

  ghost predicate Obeys(c: Config, b: Board, r: Rules) {
    && (r.votes1 ==> Votes1Justified(c, b, c.ids)) && (r.revotes ==> RevotesJustified(c, b, c.ids))
    && (r.sentinel || NoSentinel(b))
  }

  /** Ballots under which a grade 2 outcome settles its round. */
  predicate Binding(c: Config, r: Rules) {
    c.t == 0 || (r.revotes && (r.votes1 || !r.sentinel || c.n >= 5 * c.t))
  }

  /** Ballots under which unanimous inputs cannot be overturned. */
  predicate Faithful(c: Config, r: Rules) {
    c.t == 0 || r.votes1 || r.revotes
  }

  /** A node that read the VOTE1s of `bs` and the REVOTEs of `cs` concludes `o`. */
  ghost predicate Concluded(c: Config, b: Board, bs: set<int>, cs: set<int>, o: Outcome) {
    && bs <= b.vote1.Keys && |bs| >= c.n - c.t
    && cs <= b.revote.Keys && |cs| >= c.n - c.t
    && o == Decide(b.vote1, b.revote, bs, cs)
  }

  // ----------------------------------------------------------------- majorities

  /** Fewer than half of `s` may count against `bit`: the majority is `bit`, whichever way ties go. */
  lemma MajorityWins(bits: map<int, int>, s: set<int>, dissent: set<int>, bit: int)
    requires s <= bits.Keys && (bit == 0 || bit == 1)
    requires forall i :: i in s && i !in dissent ==> (bits[i] == 0 <==> bit == 0)
    requires 2 * |s * dissent| < |s|
    ensures Majority(bits, s) == bit
  {
    var ones, zeros := Ones(bits, s), Zeros(bits, s);
    assert ones + zeros == s && ones !! zeros;
    var losing := if bit == 1 then zeros else ones;
    forall i | i in losing ensures i in s * dissent {}
    SubsetCount(losing, s * dissent);
  }

  /** Up to `t` dissenters cannot turn the majority of a quorum. */
  lemma QuorumMajority(c: Config, bits: map<int, int>, s: set<int>, dissent: set<int>, bit: int)
    requires c.Valid() && s <= bits.Keys && (bit == 0 || bit == 1)
    requires forall i :: i in s && i !in dissent ==> bits[i] == bit
    requires |s| >= c.n - c.t && |dissent| <= c.t
    ensures Majority(bits, s) == bit
  {
    SubsetCount(s * dissent, dissent);
    MajorityWins(bits, s, dissent, bit);
  }

  /** Once a quorum of VOTE1s agree on `s`, no justified REVOTE says anything else. */
  lemma QuorumForcesRevotes(c: Config, b: Board, bs: set<int>, s: int, j: int)
    requires c.Valid() && OnIds(c, b) && (s == 0 || s == 1)
    requires bs <= b.vote1.Keys && |bs| >= c.n - c.t
    requires forall i :: i in bs ==> b.vote1[i].bit == s
    requires Justified2(c, b, j)
    ensures b.revote[j].bit == s
  {
    var dissent := c.ids - bs;
    assert c.ids == bs + dissent;
    QuorumMajority(c, Bits(b.vote1), b.revote[j].members, dissent, s);
  }

  lemma JustifiedHasNoSentinel(c: Config, b: Board)
    requires OnIds(c, b) && Votes1Justified(c, b, c.ids)
    ensures NoSentinel(b)
  {
  }

  lemma VotesAreBits(c: Config, b: Board, j: int)
    ensures Justified1(c, b, j) ==> b.vote1[j].bit == 0 || b.vote1[j].bit == 1
    ensures Justified2(c, b, j) ==> b.revote[j].bit == 0 || b.revote[j].bit == 1
  {
  }

  // ------------------------------------------------------------ grade 2 outcomes

  /**
   A grade 2 outcome is a real bit. Its quorum is unanimous exactly when no VOTE1 in it carries the
   sentinel -1, which the scan passes over.
   */
  lemma StrongOutcome(c: Config, b: Board, bs: set<int>, cs: set<int>, o: Outcome)
    requires c.Valid() && OnIds(c, b) && JustifiedBy(c, b, c.Honest())
    requires Concluded(c, b, bs, cs, o) && o.conf == 2
    ensures o.value == 0 || o.value == 1
    ensures forall j :: j in bs && j in c.Honest() ==> b.vote1[j].bit == o.value
    ensures (forall j :: j in bs ==> b.vote1[j].bit == o.value) <==> (forall j :: j in bs ==> b.vote1[j].bit != -1)
  {
    CommonSound(b.vote1, bs);
    assert forall j :: j in bs ==> BitOf(b.vote1, j) == b.vote1[j].bit;
    forall j | j in bs && j in c.Honest() ensures b.vote1[j].bit == o.value {
      VotesAreBits(c, b, j);
    }
    var h := HonestInBoth(c, bs, bs);
    VotesAreBits(c, b, h);
  }

  /** A grade 1 outcome is a real bit, and the bit of every honest REVOTE behind it. */
  lemma WeakOutcome(c: Config, b: Board, bs: set<int>, cs: set<int>, o: Outcome)
    requires c.Valid() && OnIds(c, b) && JustifiedBy(c, b, c.Honest())
    requires Concluded(c, b, bs, cs, o) && o.conf == 1
    ensures o.value == 0 || o.value == 1
    ensures forall j :: j in cs && j in c.Honest() ==> b.revote[j].bit == o.value
  {
    CommonSound(b.revote, cs);
    assert forall j :: j in cs ==> BitOf(b.revote, j) == b.revote[j].bit;
    forall j | j in cs && j in c.Honest() ensures b.revote[j].bit == o.value {
      VotesAreBits(c, b, j);
    }
    var h := HonestInBoth(c, cs, cs);
    VotesAreBits(c, b, h);
  }

  /** Grades are 0, 1 and 2, and graded values are bits. */
  lemma ConcludedShape(c: Config, b: Board, bs: set<int>, cs: set<int>, o: Outcome)
    requires c.Valid() && OnIds(c, b) && JustifiedBy(c, b, c.Honest()) && Concluded(c, b, bs, cs, o)
    ensures o.conf == 0 || o.conf == 1 || o.conf == 2
    ensures o.conf >= 1 ==> o.value == 0 || o.value == 1
  {
    if o.conf == 2 {
      StrongOutcome(c, b, bs, cs, o);
    } else if o.conf == 1 {
      WeakOutcome(c, b, bs, cs, o);
    }
  }

  // -------------------------------------------------- safety with arbitrary bits

  /** Up to half of `s` may count as ones: the majority is 0, since ties go to 0. */
  lemma MajorityZero(bits: map<int, int>, s: set<int>, dissent: set<int>)
    requires s <= bits.Keys && 2 * |s * dissent| <= |s| && forall i :: i in s && i !in dissent ==> bits[i] == 0
    ensures Majority(bits, s) == 0
  {
    var ones, zeros := Ones(bits, s), Zeros(bits, s);
    forall i | i in ones ensures i in s * dissent {
    }
    SubsetCount(ones, s * dissent);
    assert ones + zeros == s && ones !! zeros;
  }

  /** All but `2t` VOTE1s are 0, since the honest members of a quorum with outcome (0, 2) voted 0. */
  lemma FewOnes(c: Config, b: Board, bs: set<int>, s: set<int>)
    requires c.Valid() && OnIds(c, b) && c.n >= 5 * c.t && bs <= b.vote1.Keys && |bs| >= c.n - c.t
    requires s <= b.vote1.Keys && |s| >= c.n - c.t
    requires forall j :: j in bs && j in c.Honest() ==> b.vote1[j].bit == 0
    ensures Majority(Bits(b.vote1), s) == 0
  {
    var agree := bs - c.byz;
    var dissent := c.ids - agree;
    DifferenceCount(bs, c.byz);
    assert c.ids == agree + dissent;
    SubsetCount(s * dissent, dissent);
    forall i | i in s && i !in dissent ensures Bits(b.vote1)[i] == 0 {
      assert i in agree;
    }
    MajorityZero(Bits(b.vote1), s, dissent);
  }

  /** A quorum whose VOTE1s are ones or sentinels leaves at most `t` zeros anywhere. */
  lemma FewZeros(c: Config, b: Board, bs: set<int>, s: set<int>)
    requires c.Valid() && OnIds(c, b) && bs <= b.vote1.Keys && |bs| >= c.n - c.t
    requires s <= b.vote1.Keys && |s| >= c.n - c.t
    requires forall j :: j in bs ==> b.vote1[j].bit != 0
    ensures Majority(Bits(b.vote1), s) == 1
  {
    var dissent := c.ids - bs;
    assert c.ids == bs + dissent;
    SubsetCount(s * dissent, dissent);
    forall i | i in s && i !in dissent ensures Bits(b.vote1)[i] != 0 {
      assert i in bs;
    }
    MajorityWins(Bits(b.vote1), s, dissent, 1);
  }

  /**
   A grade 2 outcome fixes every justified REVOTE if no VOTE1 carries -1, and with `n >= 5t` even then.
   */
  lemma StrongHoldsRevote(c: Config, b: Board, bs: set<int>, cs: set<int>, o: Outcome, j: int)
    requires c.Valid() && OnIds(c, b) && JustifiedBy(c, b, c.Honest()) && (NoSentinel(b) || c.n >= 5 * c.t)
    requires Concluded(c, b, bs, cs, o) && o.conf == 2 && Justified2(c, b, j)
    ensures b.revote[j].bit == o.value
  {
    StrongOutcome(c, b, bs, cs, o);
    if o.value == 0 && !NoSentinel(b) {
      FewOnes(c, b, bs, b.revote[j].members);
    } else if o.value == 0 {
      QuorumForcesRevotes(c, b, bs, 0, j);
    } else {
      NoZeros(b, bs, cs, o);
      FewZeros(c, b, bs, b.revote[j].members);
    }
  }

  lemma NoZeros(b: Board, bs: set<int>, cs: set<int>, o: Outcome)
    requires bs <= b.vote1.Keys && o == Decide(b.vote1, b.revote, bs, cs) && o.conf == 2 && o.value == 1
    ensures forall j :: j in bs ==> b.vote1[j].bit != 0
  {
    CommonSound(b.vote1, bs);
    forall j | j in bs ensures b.vote1[j].bit != 0 {
      assert BitOf(b.vote1, j) == b.vote1[j].bit;
    }
  }

  /**
   Whatever bits up to `t` origins put in their VOTE1 and REVOTE, as long as no VOTE1 carries -1 or `n >= 5t`:
   two nodes that finish with a grade agree on the value.
   */
  lemma GradedValuesAgree(c: Config, b: Board,
                          bs: set<int>, cs: set<int>, o: Outcome, bs': set<int>, cs': set<int>, o': Outcome)
    requires c.Valid() && OnIds(c, b) && JustifiedBy(c, b, c.Honest()) && (NoSentinel(b) || c.n >= 5 * c.t)
    requires Concluded(c, b, bs, cs, o) && o.conf >= 1
    requires Concluded(c, b, bs', cs', o') && o'.conf >= 1
    ensures o.value == o'.value
  {
    if o.conf == 2 {
      if o'.conf == 2 {
        StrongMeetsStrong(c, b, bs, cs, o, bs', cs', o');
      } else {
        StrongMeetsWeak(c, b, bs, cs, o, bs', cs', o');
      }
    } else {
      if o'.conf == 2 {
        StrongMeetsWeak(c, b, bs', cs', o', bs, cs, o);
      } else {
        WeakMeetsWeak(c, b, bs, cs, o, bs', cs', o');
      }
    }
  }

  lemma StrongMeetsStrong(c: Config, b: Board,
                          bs: set<int>, cs: set<int>, o: Outcome, bs': set<int>, cs': set<int>, o': Outcome)
    requires c.Valid() && OnIds(c, b) && JustifiedBy(c, b, c.Honest())
    requires Concluded(c, b, bs, cs, o) && o.conf == 2 && Concluded(c, b, bs', cs', o') && o'.conf == 2
    ensures o.value == o'.value
  {
    var h := HonestInBoth(c, bs, bs');
    StrongOutcome(c, b, bs, cs, o);
    StrongOutcome(c, b, bs', cs', o');
  }

  lemma WeakMeetsWeak(c: Config, b: Board,
                      bs: set<int>, cs: set<int>, o: Outcome, bs': set<int>, cs': set<int>, o': Outcome)
    requires c.Valid() && OnIds(c, b) && JustifiedBy(c, b, c.Honest())
    requires Concluded(c, b, bs, cs, o) && o.conf == 1 && Concluded(c, b, bs', cs', o') && o'.conf == 1
    ensures o.value == o'.value
  {
    var h := HonestInBoth(c, cs, cs');
    WeakOutcome(c, b, bs, cs, o);
    WeakOutcome(c, b, bs', cs', o');
  }

  lemma StrongMeetsWeak(c: Config, b: Board,
                        bs: set<int>, cs: set<int>, o: Outcome, bs': set<int>, cs': set<int>, o': Outcome)
    requires c.Valid() && OnIds(c, b) && JustifiedBy(c, b, c.Honest()) && (NoSentinel(b) || c.n >= 5 * c.t)
    requires Concluded(c, b, bs, cs, o) && o.conf == 2
    requires Concluded(c, b, bs', cs', o') && o'.conf == 1
    ensures o.value == o'.value
  {
    WeakOutcome(c, b, bs', cs', o');
    var h := HonestInBoth(c, cs', cs');
    StrongHoldsRevote(c, b, bs, cs, o, h);
  }

  // ------------------------------------------------------------ graded agreement

  /**
   When every REVOTE on the board is justified, a grade 2 outcome for `s` settles the round: every
   REVOTE is `s`, and every node that finishes does so with `s` and grade 1 or 2. Forged VOTE1s do not matter,
   as long as none carries -1 or `n >= 5t`.
   */
  lemma GradedAgreement(c: Config, b: Board,
                        bs: set<int>, cs: set<int>, o: Outcome, bs': set<int>, cs': set<int>, o': Outcome)
    requires c.Valid() && OnIds(c, b) && JustifiedBy(c, b, c.Honest()) && RevotesJustified(c, b, c.ids)
    requires NoSentinel(b) || c.n >= 5 * c.t
    requires Concluded(c, b, bs, cs, o) && o.conf == 2
    requires Concluded(c, b, bs', cs', o')
    ensures forall j :: j in b.revote ==> b.revote[j].bit == o.value
    ensures o'.value == o.value && o'.conf >= 1
  {
    StrongOutcome(c, b, bs, cs, o);
    forall j | j in b.revote ensures b.revote[j].bit == o.value {
      StrongHoldsRevote(c, b, bs, cs, o, j);
    }
    if o'.conf == 2 {
      StrongOutcome(c, b, bs', cs', o');
      var h := HonestInBoth(c, bs, bs');
    } else {
      var h := HonestInBoth(c, cs', cs');
      CommonComplete(b.revote, cs', o.value);
    }
  }

  // -------------------------------------------------------------------- validity

  /**
   When every VOTE1 is justified and every code-following origin put `v` in its INPUT, every node that
   finishes does so with `v` and grade 2, whatever the other INPUTs and the REVOTEs are.
   */
  lemma UnanimousInputsWin(c: Config, b: Board, bs: set<int>, cs: set<int>, o: Outcome, v: int)
    requires c.Valid() && OnIds(c, b) && Votes1Justified(c, b, c.ids) && (v == 0 || v == 1)
    requires forall j :: j in b.inputs && j in c.Honest() ==> b.inputs[j] == v
    requires Concluded(c, b, bs, cs, o)
    ensures o == Outcome(v, 2)
  {
    forall j | j in bs ensures BitOf(b.vote1, j) == v {
      QuorumMajority(c, b.inputs, b.vote1[j].members, c.byz, v);
    }
    var h := HonestInBoth(c, bs, bs);
    CommonComplete(b.vote1, bs, v);
  }

  /**
   When every REVOTE is justified and every code-following origin put `v` in its INPUT, every node that finishes does
   so with `v` and a grade, whatever forged VOTE1s carry.
   */
  lemma UnanimousInputsHold(c: Config, b: Board, bs: set<int>, cs: set<int>, o: Outcome, v: int)
    requires c.Valid() && OnIds(c, b) && JustifiedBy(c, b, c.Honest()) && RevotesJustified(c, b, c.ids)
    requires (v == 0 || v == 1) && forall j :: j in b.inputs && j in c.Honest() ==> b.inputs[j] == v
    requires Concluded(c, b, bs, cs, o)
    ensures o.value == v && o.conf >= 1
  {
    if o.conf == 2 {
      StrongOutcome(c, b, bs, cs, o);
      var h := HonestInBoth(c, bs, bs);
      HonestVote(c, b, h, v);
    } else {
      forall j | j in cs ensures BitOf(b.revote, j) == v {
        RevoteHolds(c, b, j, v);
      }
      var h := HonestInBoth(c, cs, cs);
      CommonComplete(b.revote, cs, v);
    }
  }

  /** A justified VOTE1 carries the bit of all honest inputs. */
  lemma HonestVote(c: Config, b: Board, j: int, v: int)
    requires c.Valid() && Justified1(c, b, j) && (v == 0 || v == 1) && OnIds(c, b)
    requires forall i :: i in b.inputs && i in c.Honest() ==> b.inputs[i] == v
    ensures b.vote1[j].bit == v
  {
    QuorumMajority(c, b.inputs, b.vote1[j].members, c.byz, v);
  }

  /** A justified REVOTE carries it too. */
  lemma RevoteHolds(c: Config, b: Board, j: int, v: int)
    requires c.Valid() && OnIds(c, b) && Votes1Justified(c, b, c.Honest()) && Justified2(c, b, j)
    requires (v == 0 || v == 1) && forall i :: i in b.inputs && i in c.Honest() ==> b.inputs[i] == v
    ensures b.revote[j].bit == v
  {
    forall i | i in b.revote[j].members && i !in c.byz ensures Bits(b.vote1)[i] == v {
      HonestVote(c, b, i, v);
    }
    QuorumMajority(c, Bits(b.vote1), b.revote[j].members, c.byz, v);
  }
}
