/** One code-following node against the board of its round. */
module VoteNode {
  import opened Quorums
  import opened Vote
  import opened VoteBoard

  /** Everything in `m` was read off the board. */
  ghost predicate Sub<T(!new)>(m: map<int, T>, m': map<int, T>) {
    m.Keys <= m'.Keys && forall j :: j in m ==> m'[j] == m[j]
  }

  ghost predicate Grows(b: Board, b': Board) {
    Sub(b.inputs, b'.inputs) && Sub(b.vote1, b'.vote1) && Sub(b.revote, b'.revote)
  }

  /** Node `i` is in state `r`, has read only from the board, and wrote only what the code lets it write. */
  ghost predicate Follows(c: Config, b: Board, i: int, r: Round) {
    && Sub(r.inputs, b.inputs) && Sub(r.vote1, b.vote1) && Sub(r.revote, b.revote)
    && (r.sentVote1 <==> i in b.vote1)
    && (r.sentVote1 ==> Justified1(c, b, i) && r.myA == b.vote1[i].members && r.myA <= r.inputs.Keys)
    && (r.sentRevote <==> i in b.revote)
    && (r.sentRevote ==> r.sentVote1 && Justified2(c, b, i))
    && (r.sentRevote ==> r.myB == b.revote[i].members && Backed1(r, r.myB))
    && (r.outcome.Some? ==> r.sentRevote && Concluded(c, b, r.myB, r.myC, r.outcome.value) && Backed2(r, r.myC))
  }

  /** The VOTE1s of `s` are here, and so are all INPUTs they name. */
  ghost predicate Backed1(r: Round, s: set<int>) {
    forall j :: j in s ==> j in r.vote1 && r.vote1[j].members <= r.inputs.Keys
  }

  /** The REVOTEs of `s` are here, and so are all VOTE1s they name, with the INPUTs those name. */
  ghost predicate Backed2(r: Round, s: set<int>) {
    forall j :: j in s ==> j in r.revote && Backed1(r, r.revote[j].members)
  }

  /** More tables back no fewer ballots. */
  lemma BackedGrows(r: Round, r': Round, s: set<int>)
    requires Sub(r.inputs, r'.inputs) && Sub(r.vote1, r'.vote1) && Sub(r.revote, r'.revote)
    ensures Backed1(r, s) ==> Backed1(r', s)
    ensures Backed2(r, s) ==> Backed2(r', s)
  {
    if Backed2(r, s) {
      forall j | j in s ensures j in r'.revote && Backed1(r', r'.revote[j].members) {
        assert Backed1(r, r.revote[j].members);
      }
    }
  }

  /** What the phases take for valid is backed, and everything that is backed is taken. */
  lemma ValidIsBacked(r: Round)
    ensures Backed1(r, ValidVote1(r)) && Backed2(r, ValidRevote(r))
  {
  }

  lemma BackedIsValid(r: Round, s: set<int>)
    ensures Backed1(r, s) ==> s <= ValidVote1(r)
    ensures Backed2(r, s) ==> s <= ValidRevote(r)
  {
    if Backed1(r, s) {
      forall j | j in s ensures j in ValidVote1(r) {
      }
    }
    if Backed2(r, s) {
      forall j | j in s ensures j in ValidRevote(r) {
        forall k | k in r.revote[j].members ensures k in ValidVote1(r) {
          assert Backed1(r, r.revote[j].members);
        }
      }
    }
  }

  /** No phase of an unfinished round is waiting for something that has already arrived. */
  ghost predicate Served(c: Config, r: Round) {
    r.outcome.None? ==>
      && (!r.sentVote1 ==> |r.inputs| < c.n - c.t)
      && (r.sentVote1 && !r.sentRevote ==> |ValidVote1(r)| < c.n - c.t)
      && (r.sentRevote ==> |ValidRevote(r)| < c.n - c.t)
  }

  function Write(votes: map<int, Ballot>, i: int, v: Option<Ballot>): map<int, Ballot> {
    if v.Some? then votes[i := v.value] else votes
  }

  /** The board after node `i` broadcast what `checkProgress` told it to. */
  function Publish(b: Board, i: int, p: Progressed): Board {
    b.(vote1 := Write(b.vote1, i, p.vote1), revote := Write(b.revote, i, p.revote))
  }

  // ------------------------------------------------------------- reading ahead

  lemma MajorityReads(bits: map<int, int>, bits': map<int, int>, s: set<int>)
    requires s <= bits.Keys && Sub(bits, bits')
    ensures Majority(bits', s) == Majority(bits, s)
  {
    forall i | i in s ensures i in bits && i in bits' && bits'[i] == bits[i] {}
    assert Ones(bits', s) == Ones(bits, s);
    assert Zeros(bits', s) == Zeros(bits, s);
  }

  lemma JustifiedGrows(c: Config, b: Board, b': Board, j: int)
    requires Grows(b, b')
    ensures Justified1(c, b, j) ==> Justified1(c, b', j)
    ensures Justified2(c, b, j) ==> Justified2(c, b', j)
  {
    if Justified1(c, b, j) {
      MajorityReads(b.inputs, b'.inputs, b.vote1[j].members);
    }
    if Justified2(c, b, j) {
      MajorityReads(Bits(b.vote1), Bits(b'.vote1), b.revote[j].members);
    }
  }

  lemma DecideGrows(v: map<int, Ballot>, w: map<int, Ballot>, v': map<int, Ballot>, w': map<int, Ballot>,
                    bs: set<int>, cs: set<int>)
    requires bs <= v.Keys && cs <= w.Keys && Sub(v, v') && Sub(w, w')
    ensures Decide(v', w', bs, cs) == Decide(v, w, bs, cs)
  {
    CommonExtends(v, v', bs);
    CommonExtends(w, w', cs);
  }

  lemma ConcludedGrows(c: Config, b: Board, b': Board, bs: set<int>, cs: set<int>, o: Outcome)
    requires Grows(b, b') && Concluded(c, b, bs, cs, o)
    ensures Concluded(c, b', bs, cs, o)
  {
    DecideGrows(b.vote1, b.revote, b'.vote1, b'.revote, bs, cs);
  }

  /** What others write does not disturb node `i`. */
  lemma FollowsGrows(c: Config, b: Board, b': Board, i: int, r: Round)
    requires Follows(c, b, i, r) && Grows(b, b')
    requires (i in b'.vote1 ==> i in b.vote1) && (i in b'.revote ==> i in b.revote)
    ensures Follows(c, b', i, r)
  {
    JustifiedGrows(c, b, b', i);
    if r.outcome.Some? {
      ConcludedGrows(c, b, b', r.myB, r.myC, r.outcome.value);
    }
  }

  /** The ballots of `b'` that are not on `b` keep the rules. */
  ghost predicate NewBallots(c: Config, b: Board, b': Board, r: Rules) {
    && (forall j :: j in b'.vote1 && j !in b.vote1 ==>
          (r.votes1 ==> Justified1(c, b', j)) && (r.sentinel || b'.vote1[j].bit != -1))
    && (forall j :: j in b'.revote && j !in b.revote ==> (r.revotes ==> Justified2(c, b', j)))
  }

  lemma ObeysGrows(c: Config, b: Board, b': Board, r: Rules)
    requires Grows(b, b') && Obeys(c, b, r) && NewBallots(c, b, b', r)
    ensures Obeys(c, b', r)
  {
    forall j {
      JustifiedGrows(c, b, b', j);
    }
  }

  // ------------------------------------------------------------------ progress

  /** A round without messages has nothing to do. */
  lemma FreshProgress(n: nat, t: nat)
    requires n > t
    ensures Progress(n, t, FreshRound()) == Progressed(FreshRound(), None, None)
  {
    var r := FreshRound();
    assert ValidVote1(r) == {} && ValidRevote(r) == {};
    assert Phase1(n, t, r) == (r, None);
    assert Phase2(n, t, r) == (r, None);
    assert Phase3(n, t, r) == r;
  }

  lemma Phase1Follows(c: Config, b: Board, i: int, r: Round)
    requires Follows(c, b, i, r) && r.outcome.None?
    ensures var (r', v) := Phase1(c.n, c.t, r);
            var b' := b.(vote1 := Write(b.vote1, i, v));
            && Follows(c, b', i, r') && Grows(b, b') && r'.outcome.None?
            && (!r'.sentVote1 ==> |r'.inputs| < c.n - c.t)
  {
    var (r', v) := Phase1(c.n, c.t, r);
    if v.Some? {
      var b' := b.(vote1 := Write(b.vote1, i, v));
      assert |r.inputs| == |r.inputs.Keys|;
      MajorityReads(r.inputs, b.inputs, r.inputs.Keys);
      assert Sub(b.vote1, b'.vote1);
    }
  }

  lemma Phase2Follows(c: Config, b: Board, i: int, r: Round)
    requires Follows(c, b, i, r) && r.outcome.None?
    ensures var (r', v) := Phase2(c.n, c.t, r);
            var b' := b.(revote := Write(b.revote, i, v));
            && Follows(c, b', i, r') && Grows(b, b') && r'.outcome.None?
            && r'.inputs == r.inputs && r'.sentVote1 == r.sentVote1
            && (r'.sentVote1 && !r'.sentRevote ==> |ValidVote1(r')| < c.n - c.t)
  {
    var (r', v) := Phase2(c.n, c.t, r);
    if v.Some? {
      var b' := b.(revote := Write(b.revote, i, v));
      MajorityReads(Bits(r.vote1), Bits(b.vote1), ValidVote1(r));
      ValidIsBacked(r);
      assert ValidVote1(r') == ValidVote1(r);
      assert Sub(b.revote, b'.revote);
    }
  }

  lemma Phase3Follows(c: Config, b: Board, i: int, r: Round)
    requires Follows(c, b, i, r) && r.outcome.None?
    ensures Follows(c, b, i, Phase3(c.n, c.t, r))
    ensures Phase3(c.n, c.t, r).outcome.None? ==>
      Phase3(c.n, c.t, r) == r && (r.sentRevote ==> |ValidRevote(r)| < c.n - c.t)
  {
    var r' := Phase3(c.n, c.t, r);
    if r'.outcome.Some? {
      ValidIsBacked(r);
      BackedGrows(r, r', r.myB);
      BackedGrows(r, r', r'.myC);
      DecideGrows(r.vote1, r.revote, b.vote1, b.revote, r.myB, r'.myC);
    }
  }

  /** `checkProgress` keeps a node in step with the board and leaves no phase unserved. */
  lemma ProgressFollows(c: Config, b: Board, i: int, r: Round)
    requires Follows(c, b, i, r) && r.outcome.None?
    ensures var p := Progress(c.n, c.t, r);
            Follows(c, Publish(b, i, p), i, p.round) && Grows(b, Publish(b, i, p)) && Served(c, p.round)
  {
    var (r1, v1) := Phase1(c.n, c.t, r);
    var b1 := b.(vote1 := Write(b.vote1, i, v1));
    Phase1Follows(c, b, i, r);
    Phase2Follows(c, b1, i, r1);
    var (r2, v2) := Phase2(c.n, c.t, r1);
    Phase3Follows(c, b1.(revote := Write(b1.revote, i, v2)), i, r2);
  }

  /** A payload of `sender` as it stands on the board. */
  ghost predicate OnBoard(b: Board, sender: int, p: Payload) {
    match p
    case Input(bit) => sender in b.inputs && b.inputs[sender] == bit
    case Vote1(v) => sender in b.vote1 && b.vote1[sender] == v
    case Revote(v) => sender in b.revote && b.revote[sender] == v
  }

  /** A table may gain an entry or, for the same origin, see the one it has again. */
  lemma RecordBacked(r: Round, sender: int, p: Payload, s: set<int>)
    requires match p
             case Input(bit) => true
             case Vote1(v) => sender in r.vote1 ==> r.vote1[sender] == v
             case Revote(v) => sender in r.revote ==> r.revote[sender] == v
    ensures Backed1(r, s) ==> Backed1(Record(r, sender, p), s)
  {
  }

  lemma RecordFollows(c: Config, b: Board, i: int, r: Round, sender: int, p: Payload)
    requires Follows(c, b, i, r) && r.outcome.None? && OnBoard(b, sender, p)
    ensures Follows(c, b, i, Record(r, sender, p))
  {
    var r' := Record(r, sender, p);
    RecordBacked(r, sender, p, r.myB);
  }

  lemma DeliverFollows(c: Config, b: Board, i: int, r: Round, sender: int, p: Payload)
    requires Follows(c, b, i, r) && Served(c, r) && OnBoard(b, sender, p)
    ensures var d := OnDelivered(c.n, c.t, r, sender, p);
            Follows(c, Publish(b, i, d), i, d.round) && Grows(b, Publish(b, i, d)) && Served(c, d.round)
  {
    if r.outcome.None? {
      RecordFollows(c, b, i, r, sender, p);
      ProgressFollows(c, b, i, Record(r, sender, p));
    }
  }
}
