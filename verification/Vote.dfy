/** The three-phase graded vote: one node, one round. */
module Vote {
  import opened Quorums

  /** A VOTE1 or REVOTE payload: the senders it names and the bit it carries. */
  datatype Ballot = Ballot(members: set<int>, bit: int)

  /** `value` is -1 when there is none; `conf` is 0, 1 or 2. */
  datatype Outcome = Outcome(value: int, conf: int)

  /** One round at one node; the round is finished when it has an outcome. */
  datatype Round = Round(
    inputs: map<int, int>,
    vote1: map<int, Ballot>,
    revote: map<int, Ballot>,
    sentVote1: bool,
    sentRevote: bool,
    myA: set<int>,
    myB: set<int>,
    myC: set<int>,
    outcome: Option<Outcome>)

  function FreshRound(): Round {
    Round(map[], map[], map[], false, false, {}, {}, {}, None)
  }

  /** The state of round `r`; a round nobody has touched is fresh. */
  function VoteAt(votes: map<int, Round>, r: int): Round {
    if r in votes then votes[r] else FreshRound()
  }

  // ------------------------------------------------------------------ counting

  /** Senders whose bit counts as a one: everything that is not 0. */
  function Ones(bits: map<int, int>, s: set<int>): set<int> {
    set i | i in s && i in bits && bits[i] != 0
  }

  function Zeros(bits: map<int, int>, s: set<int>): set<int> {
    set i | i in s && i in bits && bits[i] == 0
  }

  /** Strict majority of ones, ties to 0. */
  function Majority(bits: map<int, int>, s: set<int>): int {
    if |Ones(bits, s)| > |Zeros(bits, s)| then 1 else 0
  }

  function Bits(votes: map<int, Ballot>): map<int, int> {
    map i | i in votes :: votes[i].bit
  }

  // ------------------------------------------------------------- sorted listing

  ghost predicate IsLeast(m: int, s: set<int>) {
    m in s && forall x :: x in s ==> m <= x
  }

  lemma {:induction false} LeastExists(s: set<int>) returns (m: int)
    requires s != {}
    ensures IsLeast(m, s)
    decreases |s|
  {
    var y := Pick(s);
    m := y;
    var rest := s - {y};
    if rest == {} {
      assert s == {y};
    } else {
      var m' := LeastExists(rest);
      m := if m' < y then m' else y;
      forall x | x in s ensures m <= x {
        assert x == y || x in rest;
      }
    }
  }

  function Least(s: set<int>): int
    requires s != {}
    ensures Least(s) in s && forall x :: x in s ==> Least(s) <= x
  {
    assert exists m :: IsLeast(m, s) by { var m := LeastExists(s); }
    var m :| m in s && forall x :: x in s ==> m <= x;
    m
  }

  /** The members in increasing order. */
  function Sorted(s: set<int>): (q: seq<int>)
    ensures forall x :: x in q <==> x in s
    ensures forall k, l :: 0 <= k < l < |q| ==> q[k] < q[l]
  {
    if s == {} then []
    else
      var m := Least(s);
      var rest := Sorted(s - {m});
      assert forall k :: 0 <= k < |rest| ==> rest[k] in s - {m};
      [m] + rest
  }

  // ----------------------------------------------------------------- unanimity

  /**
   The scan for a common bit: -1 stands for "no bit seen yet" and also for "bits differ", so a
   leading bit of -1 is passed over.
   */
  function Agreed(first: int, bits: seq<int>): int
    decreases |bits|
  {
    if bits == [] then first
    else if first == -1 then Agreed(bits[0], bits[1..])
    else if bits[0] != first then -1
    else Agreed(first, bits[1..])
  }

  /** A sender that is missing reads as bit 0. */
  function BitOf(votes: map<int, Ballot>, j: int): int {
    if j in votes then votes[j].bit else 0
  }

  function BitList(votes: map<int, Ballot>, js: seq<int>): (bits: seq<int>)
    ensures |bits| == |js|
    ensures forall k :: 0 <= k < |js| ==> bits[k] == BitOf(votes, js[k])
  {
    if js == [] then [] else [BitOf(votes, js[0])] + BitList(votes, js[1..])
  }

  /** The common bit of the votes of `s`, or -1. */
  function Common(votes: map<int, Ballot>, s: set<int>): int {
    Agreed(-1, BitList(votes, Sorted(s)))
  }

  function Decide(vote1: map<int, Ballot>, revote: map<int, Ballot>, b: set<int>, c: set<int>): Outcome {
    if Common(vote1, b) != -1 then Outcome(Common(vote1, b), 2)
    else if Common(revote, c) != -1 then Outcome(Common(revote, c), 1)
    else Outcome(-1, 0)
  }

  // -------------------------------------------------------------------- phases

  /** VOTE1s all of whose named inputs have arrived here. */
  function ValidVote1(r: Round): set<int> {
    set j | j in r.vote1 && r.vote1[j].members <= r.inputs.Keys
  }

  /** REVOTEs all of whose named VOTE1s are valid here. */
  function ValidRevote(r: Round): set<int> {
    set j | j in r.revote && r.revote[j].members <= ValidVote1(r)
  }

  predicate SameTables(r: Round, r': Round) {
    r'.inputs == r.inputs && r'.vote1 == r.vote1 && r'.revote == r.revote
  }

  function Phase1(n: nat, t: nat, r: Round): (p: (Round, Option<Ballot>))
    ensures SameTables(r, p.0) && p.0.outcome == r.outcome
  {
    if !r.sentVote1 && |r.inputs| >= n - t then
      (r.(sentVote1 := true, myA := r.inputs.Keys), Some(Ballot(r.inputs.Keys, Majority(r.inputs, r.inputs.Keys))))
    else
      (r, None)
  }

  function Phase2(n: nat, t: nat, r: Round): (p: (Round, Option<Ballot>))
    ensures SameTables(r, p.0) && p.0.outcome == r.outcome
  {
    var valid := ValidVote1(r);
    if r.sentVote1 && !r.sentRevote && |valid| >= n - t then
      (r.(sentRevote := true, myB := valid), Some(Ballot(valid, Majority(Bits(r.vote1), valid))))
    else
      (r, None)
  }

  function Phase3(n: nat, t: nat, r: Round): (r': Round)
    ensures SameTables(r, r') && (r'.outcome.None? ==> r.outcome.None?)
  {
    var valid := ValidRevote(r);
    if r.sentRevote && |valid| >= n - t then
      r.(myC := valid, outcome := Some(Decide(r.vote1, r.revote, r.myB, valid)))
    else
      r
  }

  /** What `checkProgress` leaves behind and which VOTE1 and REVOTE it broadcasts. */
  datatype Progressed = Progressed(round: Round, vote1: Option<Ballot>, revote: Option<Ballot>)

  function Progress(n: nat, t: nat, r: Round): (p: Progressed)
    ensures SameTables(r, p.round) && (p.round.outcome.None? ==> r.outcome.None?)
  {
    var (r1, v1) := Phase1(n, t, r);
    var (r2, v2) := Phase2(n, t, r1);
    Progressed(Phase3(n, t, r2), v1, v2)
  }

  datatype Payload =
    | Input(bit: int)
    | Vote1(ballot: Ballot)
    | Revote(ballot: Ballot)

  function Record(r: Round, sender: int, p: Payload): Round {
    match p
    case Input(bit) => r.(inputs := r.inputs[sender := bit])
    case Vote1(v) => r.(vote1 := r.vote1[sender := v])
    case Revote(v) => r.(revote := r.revote[sender := v])
  }

  /** A delivery is recorded and acted on unless the round is finished. */
  function OnDelivered(n: nat, t: nat, r: Round, sender: int, p: Payload): Progressed {
    if r.outcome.Some? then Progressed(r, None, None)
    else Progress(n, t, Record(r, sender, p))
  }

  // ------------------------------------------------------ what the scan decides

  lemma {:induction false} AgreedSound(first: int, bits: seq<int>)
    requires Agreed(first, bits) != -1
    ensures Agreed(first, bits) == first || Agreed(first, bits) in bits
    ensures first != -1 ==> Agreed(first, bits) == first
    ensures forall b :: b in bits ==> b == Agreed(first, bits) || (first == -1 && b == -1)
    decreases |bits|
  {
    if bits != [] {
      if first == -1 {
        AgreedSound(bits[0], bits[1..]);
      } else {
        AgreedSound(first, bits[1..]);
      }
      assert bits == [bits[0]] + bits[1..];
    }
  }

  lemma {:induction false} AgreedComplete(first: int, bits: seq<int>, s: int)
    requires s != -1 && forall k :: 0 <= k < |bits| ==> bits[k] == s
    requires first == s || (first == -1 && bits != [])
    ensures Agreed(first, bits) == s
    decreases |bits|
  {
    if bits != [] {
      AgreedComplete(if first == -1 then bits[0] else first, bits[1..], s);
    }
  }

  /** A common bit is somebody's bit, and the only other value present is the sentinel -1. */
  lemma CommonSound(votes: map<int, Ballot>, s: set<int>)
    requires Common(votes, s) != -1
    ensures exists j :: j in s && BitOf(votes, j) == Common(votes, s)
    ensures forall j :: j in s ==> BitOf(votes, j) == Common(votes, s) || BitOf(votes, j) == -1
  {
    var js := Sorted(s);
    var bits := BitList(votes, js);
    AgreedSound(-1, bits);
    var k :| 0 <= k < |bits| && bits[k] == Common(votes, s);
    assert js[k] in s;
    forall j | j in s ensures BitOf(votes, j) == Common(votes, s) || BitOf(votes, j) == -1 {
      var l :| 0 <= l < |js| && js[l] == j;
      assert bits[l] in bits;
    }
  }

  lemma CommonComplete(votes: map<int, Ballot>, s: set<int>, bit: int)
    requires s != {} && bit != -1 && forall j :: j in s ==> BitOf(votes, j) == bit
    ensures Common(votes, s) == bit
  {
    var js := Sorted(s);
    var bits := BitList(votes, js);
    forall k | 0 <= k < |bits| ensures bits[k] == bit {
      assert js[k] in s;
    }
    var j :| j in s;
    assert j in js;
    AgreedComplete(-1, bits, bit);
  }

  ghost predicate AllFrom(bits: seq<int>, k: nat, v: int) {
    forall a :: k <= a < |bits| ==> bits[a] == v
  }

  ghost predicate AllUpTo(bits: seq<int>, k: nat, v: int) {
    forall a :: 0 <= a < k && a < |bits| ==> bits[a] == v
  }

  lemma {:induction false} AgreedRest(first: int, bits: seq<int>, v: int)
    requires v != -1 && first != -1
    ensures Agreed(first, bits) == v <==> first == v && AllFrom(bits, 0, v)
    decreases |bits|
  {
    if bits != [] {
      AgreedRest(first, bits[1..], v);
      assert bits == [bits[0]] + bits[1..];
      assert AllFrom(bits, 0, v) <==> bits[0] == v && AllFrom(bits[1..], 0, v);
    }
  }

  /** The scan stops at `v` exactly when the bits are -1 up to some place and `v` from there on. */
  lemma {:induction false} AgreedExactly(bits: seq<int>, v: int)
    requires v != -1
    ensures Agreed(-1, bits) == v <==> exists k :: 0 <= k < |bits| && AllUpTo(bits, k, -1) && AllFrom(bits, k, v)
    decreases |bits|
  {
    if bits != [] {
      var rest := bits[1..];
      assert bits == [bits[0]] + rest;
      if bits[0] == -1 {
        AgreedExactly(rest, v);
        if k :| 0 <= k < |rest| && AllUpTo(rest, k, -1) && AllFrom(rest, k, v) {
          assert AllUpTo(bits, k + 1, -1) && AllFrom(bits, k + 1, v);
        }
        if k :| 0 <= k < |bits| && AllUpTo(bits, k, -1) && AllFrom(bits, k, v) {
          assert AllUpTo(rest, k - 1, -1) && AllFrom(rest, k - 1, v);
        }
      } else {
        AgreedRest(bits[0], rest, v);
        if Agreed(-1, bits) == v {
          assert AllUpTo(bits, 0, -1) && AllFrom(bits, 0, v);
        }
        if k :| 0 <= k < |bits| && AllUpTo(bits, k, -1) && AllFrom(bits, k, v) {
          assert bits[0] == v;
          assert AllFrom(rest, 0, v);
        }
      }
    }
  }

  /** Members below `x` vote -1 and all others `v`. */
  ghost predicate CutAt(votes: map<int, Ballot>, s: set<int>, x: int, v: int) {
    x in s && forall j :: j in s ==> BitOf(votes, j) == if j < x then -1 else v
  }

  /** A set has the common bit `v` exactly when its first members, in order, say -1 and all others say `v`. */
  lemma CommonExactly(votes: map<int, Ballot>, s: set<int>, v: int)
    requires v != -1
    ensures Common(votes, s) == v <==> exists x :: CutAt(votes, s, x, v)
  {
    var js := Sorted(s);
    var bits := BitList(votes, js);
    AgreedExactly(bits, v);
    if Common(votes, s) == v {
      var k :| 0 <= k < |bits| && AllUpTo(bits, k, -1) && AllFrom(bits, k, v);
      CutFrom(votes, s, k, v);
    }
    if x :| CutAt(votes, s, x, v) {
      var k := PlaceOf(votes, s, x, v);
    }
  }

  lemma PlaceOf(votes: map<int, Ballot>, s: set<int>, x: int, v: int) returns (k: nat)
    requires CutAt(votes, s, x, v)
    ensures k < |Sorted(s)| && AllUpTo(BitList(votes, Sorted(s)), k, -1) && AllFrom(BitList(votes, Sorted(s)), k, v)
  {
    k := PlaceIn(votes, s, Sorted(s), x, v);
  }

  lemma PlaceIn(votes: map<int, Ballot>, s: set<int>, js: seq<int>, x: int, v: int) returns (k: nat)
    requires CutAt(votes, s, x, v) && x in js && forall a :: 0 <= a < |js| ==> js[a] in s
    requires forall a, b :: 0 <= a < b < |js| ==> js[a] < js[b]
    ensures k < |js| && AllUpTo(BitList(votes, js), k, -1) && AllFrom(BitList(votes, js), k, v)
  {
    k :| 0 <= k < |js| && js[k] == x;
  }

  lemma CommonMeans(votes: map<int, Ballot>, s: set<int>)
    ensures Common(votes, s) != -1 ==> exists x :: CutAt(votes, s, x, Common(votes, s))
    ensures Common(votes, s) == -1 ==> forall x, v :: CutAt(votes, s, x, v) ==> v == -1
  {
    if Common(votes, s) != -1 {
      CommonExactly(votes, s, Common(votes, s));
    }
    forall x, v | CutAt(votes, s, x, v) && v != -1 ensures Common(votes, s) == v {
      CommonExactly(votes, s, v);
    }
  }

  lemma CutFrom(votes: map<int, Ballot>, s: set<int>, k: nat, v: int)
    requires k < |Sorted(s)|
    requires var bits := BitList(votes, Sorted(s)); AllUpTo(bits, k, -1) && AllFrom(bits, k, v)
    ensures CutAt(votes, s, Sorted(s)[k], v)
  {
    CutIn(votes, s, Sorted(s), BitList(votes, Sorted(s)), k, v);
  }

  lemma CutIn(votes: map<int, Ballot>, s: set<int>, js: seq<int>, bits: seq<int>, k: nat, v: int)
    requires k < |js| == |bits| && (forall x :: x in s <==> x in js)
    requires forall a, b :: 0 <= a < b < |js| ==> js[a] < js[b]
    requires forall a :: 0 <= a < |js| ==> bits[a] == BitOf(votes, js[a])
    requires AllUpTo(bits, k, -1) && AllFrom(bits, k, v)
    ensures CutAt(votes, s, js[k], v)
  {
    forall j | j in s ensures BitOf(votes, j) == if j < js[k] then -1 else v {
      var a :| 0 <= a < |js| && js[a] == j;
      assert bits[a] == BitOf(votes, j);
    }
  }

  /** The majority is 1 exactly when fewer than half of the set are zeros. */
  lemma MajorityCounts(bits: map<int, int>, s: set<int>)
    requires s <= bits.Keys
    ensures Majority(bits, s) == if 2 * |set i | i in s && bits[i] == 0| < |s| then 1 else 0
  {
    var zeros := set i | i in s && bits[i] == 0;
    assert zeros == Zeros(bits, s);
    assert Ones(bits, s) == s - zeros;
    assert s == zeros + (s - zeros);
  }

  /** Votes read through a larger table give the same common bit. */
  lemma CommonExtends(votes: map<int, Ballot>, more: map<int, Ballot>, s: set<int>)
    requires s <= votes.Keys && s <= more.Keys
    requires forall j :: j in s ==> more[j] == votes[j]
    ensures Common(more, s) == Common(votes, s)
  {
    var js := Sorted(s);
    assert BitList(votes, js) == BitList(more, js);
  }
}
