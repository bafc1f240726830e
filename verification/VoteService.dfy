/** The vote service of one node: `checkProgress` with its counting, subset and scanning loops. */
module VoteService {
  import opened Quorums
  import opened Vote

  datatype Out =
    | SentInput(round: int, bit: int)
    | SentVote1(round: int, ballot: Ballot)
    | SentRevote(round: int, ballot: Ballot)

  /** The broadcasts of one run of `checkProgress`. */
  function Ballots(r: int, p: Progressed): seq<Out> {
    (if p.vote1.Some? then [SentVote1(r, p.vote1.value)] else [])
    + (if p.revote.Some? then [SentRevote(r, p.revote.value)] else [])
  }

  /** The outcome that `finish` hands on: the one that was not there before. */
  function News(before: Round, after: Round): Option<Outcome> {
    if before.outcome.None? then after.outcome else None
  }

  // ---------------------------------------------------------------------- loops

  /** Counts the bits of the senders in `s`, in whatever order they come. */
  method CountBits(bits: map<int, int>, s: set<int>) returns (zeros: nat, ones: nat)
    requires s <= bits.Keys
    ensures zeros == |Zeros(bits, s)| && ones == |Ones(bits, s)|
    ensures zeros == |set i | i in s && bits[i] == 0| && zeros + ones == |s|
  {
    zeros, ones := 0, 0;
    var left := s;
    while left != {}
      invariant left <= s
      invariant zeros == |Zeros(bits, s - left)| && ones == |Ones(bits, s - left)|
      decreases |left|
    {
      ghost var some := Pick(left);
      var i :| i in left;
      CountOne(bits, s - left, i);
      if bits[i] == 0 {
        zeros := zeros + 1;
      } else {
        ones := ones + 1;
      }
      assert s - (left - {i}) == (s - left) + {i};
      left := left - {i};
    }
    assert s - left == s;
    CountAll(bits, s);
  }

  lemma CountAll(bits: map<int, int>, s: set<int>)
    requires s <= bits.Keys
    ensures |Zeros(bits, s)| == |set i | i in s && bits[i] == 0|
    ensures |Zeros(bits, s)| + |Ones(bits, s)| == |s|
  {
    assert Zeros(bits, s) == set i | i in s && bits[i] == 0;
    assert s == Zeros(bits, s) + Ones(bits, s);
    assert Zeros(bits, s) * Ones(bits, s) == {};
  }

  lemma CountOne(bits: map<int, int>, s: set<int>, i: int)
    requires i !in s && i in bits
    ensures |Zeros(bits, s + {i})| == |Zeros(bits, s)| + (if bits[i] == 0 then 1 else 0)
    ensures |Ones(bits, s + {i})| == |Ones(bits, s)| + (if bits[i] == 0 then 0 else 1)
  {
    if bits[i] == 0 {
      assert Zeros(bits, s + {i}) == Zeros(bits, s) + {i};
      assert Ones(bits, s + {i}) == Ones(bits, s);
    } else {
      assert Zeros(bits, s + {i}) == Zeros(bits, s);
      assert Ones(bits, s + {i}) == Ones(bits, s) + {i};
    }
  }

  method MajorityBit(bits: map<int, int>, s: set<int>) returns (bit: int)
    requires s <= bits.Keys
    ensures bit == Majority(bits, s)
    ensures bit == if 2 * |set i | i in s && bits[i] == 0| < |s| then 1 else 0
  {
    var zeros, ones := CountBits(bits, s);
    bit := 0;
    if ones > zeros {
      bit := 1;
    }
  }

  /** The senders whose named set lies within `all`. */
  method Supported(votes: map<int, Ballot>, all: set<int>) returns (valid: set<int>)
    ensures valid == set j | j in votes && votes[j].members <= all
  {
    valid := {};
    var left := votes.Keys;
    while left != {}
      invariant left <= votes.Keys
      invariant valid == set j | j in votes.Keys - left && votes[j].members <= all
      decreases |left|
    {
      ghost var some := Pick(left);
      var j :| j in left;
      var within := IsSubset(votes[j].members, all);
      if within {
        valid := valid + {j};
      }
      left := left - {j};
    }
  }

  method IsSubset(a: set<int>, b: set<int>) returns (ok: bool)
    ensures ok <==> a <= b
  {
    var left := a;
    while left != {}
      invariant left <= a && a - left <= b
      decreases |left|
    {
      ghost var some := Pick(left);
      var x :| x in left;
      if x !in b {
        return false;
      }
      left := left - {x};
    }
    ok := true;
  }

  /** The scan for a common bit: -1 means that none has been seen. */
  method CommonBit(votes: map<int, Ballot>, s: set<int>) returns (bit: int)
    ensures bit == Common(votes, s)
    ensures if bit != -1 then exists x :: CutAt(votes, s, x, bit) else forall x, v :: CutAt(votes, s, x, v) ==> v == -1
  {
    var js := Sorted(s);
    ghost var bits := BitList(votes, js);
    var first, same := -1, true;
    var a := 0;
    while a < |js|
      invariant 0 <= a <= |js| && same
      invariant Agreed(-1, bits) == Agreed(first, bits[a..])
    {
      var val := if js[a] in votes then votes[js[a]].bit else 0;
      assert bits[a..][1..] == bits[a + 1..];
      if first == -1 {
        first := val;
      } else if first != val {
        same := false;
        break;
      }
      a := a + 1;
    }
    bit := if same then first else -1;
    CommonMeans(votes, s);
  }

  /** Which votes are valid depends on the tables alone. */
  lemma ValidByTables(r: Round, r': Round)
    requires SameTables(r, r')
    ensures ValidVote1(r) == ValidVote1(r') && ValidRevote(r) == ValidRevote(r')
  {
  }

  method StorePayload(state: Round, sender: int, p: Payload) returns (next: Round)
    ensures next == Record(state, sender, p)
  {
    match p {
      case Input(bit) => next := state.(inputs := state.inputs[sender := bit]);
      case Vote1(v) => next := state.(vote1 := state.vote1[sender := v]);
      case Revote(v) => next := state.(revote := state.revote[sender := v]);
    }
  }

  /** Grade 2 with a bit common to the own VOTE1s, grade 1 with one common to the REVOTEs `c`, else no value. */
  ghost predicate Grade(r: Round, c: set<int>, o: Outcome) {
    if exists x, v :: v != -1 && CutAt(r.vote1, r.myB, x, v) then
      o.conf == 2 && exists x :: CutAt(r.vote1, r.myB, x, o.value)
    else if exists x, v :: v != -1 && CutAt(r.revote, c, x, v) then
      o.conf == 1 && exists x :: CutAt(r.revote, c, x, o.value)
    else o == Outcome(-1, 0)
  }

  class VoteService {
    const id: int
    const n: nat
    const t: nat
    var rounds: map<int, Round>
    var outbox: seq<Out>

    constructor (id: int, n: nat, t: nat)
      ensures this.id == id && this.n == n && this.t == t && rounds == map[] && outbox == []
    {
      this.id, this.n, this.t := id, n, t;
      rounds, outbox := map[], [];
    }

    method TryVote1(r: int, state: Round) returns (next: Round)
      modifies this`outbox
      ensures next == Phase1(n, t, state).0
      ensures var v := Phase1(n, t, state).1;
              outbox == old(outbox) + (if v.Some? then [SentVote1(r, v.value)] else [])
      ensures next.sentVote1 <==> state.sentVote1 || |state.inputs| >= n - t
      ensures next.sentVote1 && !state.sentVote1 ==>
        var zeros := set i | i in state.inputs && state.inputs[i] == 0;
        var bit := if 2 * |zeros| < |state.inputs| then 1 else 0;
        outbox == old(outbox) + [SentVote1(r, Ballot(state.inputs.Keys, bit))]
    {
      next := state;
      if !state.sentVote1 {
        if |state.inputs| >= n - t {
          var bit := MajorityBit(state.inputs, state.inputs.Keys);
          next := next.(sentVote1 := true, myA := state.inputs.Keys);
          outbox := outbox + [SentVote1(r, Ballot(next.myA, bit))];
        }
      }
    }

    method TryRevote(r: int, state: Round, valid: set<int>) returns (next: Round)
      requires valid == ValidVote1(state)
      modifies this`outbox
      ensures next == Phase2(n, t, state).0
      ensures var v := Phase2(n, t, state).1;
              outbox == old(outbox) + (if v.Some? then [SentRevote(r, v.value)] else [])
      ensures next.sentRevote <==> state.sentRevote || (state.sentVote1 && |valid| >= n - t)
      ensures next.sentRevote && !state.sentRevote ==> next.myB == valid
    {
      next := state;
      if state.sentVote1 && !state.sentRevote {
        if |valid| >= n - t {
          var bit := MajorityBit(Bits(state.vote1), valid);
          next := next.(sentRevote := true, myB := valid);
          outbox := outbox + [SentRevote(r, Ballot(next.myB, bit))];
        }
      }
    }

    method TryFinish(state: Round, valid: set<int>) returns (next: Round)
      requires valid == ValidRevote(state)
      ensures next == Phase3(n, t, state)
      ensures next == state.(myC := next.myC, outcome := next.outcome)
      ensures if state.sentRevote && |valid| >= n - t then next.outcome.Some? && next.myC == valid else next == state
      ensures state.sentRevote && |valid| >= n - t ==> Grade(state, valid, next.outcome.value)
    {
      next := state;
      if state.sentRevote {
        if |valid| >= n - t {
          next := next.(myC := valid);
          var b := CommonBit(state.vote1, state.myB);
          if b != -1 {
            next := next.(outcome := Some(Outcome(b, 2)));
            return;
          }
          var c := CommonBit(state.revote, valid);
          if c != -1 {
            next := next.(outcome := Some(Outcome(c, 1)));
            return;
          }
          next := next.(outcome := Some(Outcome(-1, 0)));
        }
      }
    }

    method CheckProgress(r: int, state: Round) returns (next: Round)
      modifies this`outbox
      ensures var p := Progress(n, t, state); next == p.round && outbox == old(outbox) + Ballots(r, p)
      ensures var votes := set j | j in state.vote1 && state.vote1[j].members <= state.inputs.Keys;
              var revotes := set j | j in state.revote && state.revote[j].members <= votes;
              && (next.sentVote1 <==> state.sentVote1 || |state.inputs| >= n - t)
              && (next.sentRevote <==> state.sentRevote || (next.sentVote1 && |votes| >= n - t))
              && (next.sentRevote && !state.sentRevote ==> next.myB == votes)
              && (next.sentRevote && |revotes| >= n - t ==> next.outcome.Some? && next.myC == revotes)
              && (!(next.sentRevote && |revotes| >= n - t) ==> next.outcome == state.outcome)
    {
      var first := TryVote1(r, state);
      ValidByTables(state, first);
      var valid1 := Supported(first.vote1, first.inputs.Keys);
      var after := TryRevote(r, first, valid1);
      ValidByTables(first, after);
      var valid2 := Supported(after.revote, valid1);
      next := TryFinish(after, valid2);
    }

    /** One pass over round `r`; its outcome, if any, is the result. */
    method Act(r: int, state: Round) returns (result: Option<Outcome>)
      modifies this
      ensures var p := Progress(n, t, state);
              rounds == old(rounds)[r := p.round] && outbox == old(outbox) + Ballots(r, p) && result == p.round.outcome
    {
      var next := CheckProgress(r, state);
      rounds := rounds[r := next];
      result := next.outcome;
    }

    /** Broadcasts the INPUT of a round that is not over, and acts on what has already arrived. */
    method StartRound(r: int, bit: int) returns (result: Option<Outcome>)
      modifies this
      ensures var before := VoteAt(old(rounds), r);
              if before.outcome.Some? then rounds == old(rounds)[r := before] && outbox == old(outbox) && result.None?
              else var p := Progress(n, t, before);
                   && rounds == old(rounds)[r := p.round]
                   && outbox == old(outbox) + [SentInput(r, bit)] + Ballots(r, p)
                   && result == p.round.outcome
    {
      var state := VoteAt(rounds, r);
      rounds := rounds[r := state];
      result := None;
      if state.outcome.Some? {
        return;
      }
      outbox := outbox + [SentInput(r, bit)];
      result := Act(r, state);
    }

    method OnDeliver(r: int, sender: int, p: Payload) returns (result: Option<Outcome>)
      modifies this
      ensures var before := VoteAt(old(rounds), r);
              var d := OnDelivered(n, t, before, sender, p);
              && rounds == old(rounds)[r := d.round]
              && outbox == old(outbox) + Ballots(r, d)
              && result == News(before, d.round)
      ensures var before := if r in old(rounds) then old(rounds)[r] else FreshRound();
              && r in rounds
              && (before.outcome.Some? ==> rounds[r] == before && outbox == old(outbox) && result.None?)
              && (before.outcome.None? ==>
                    && rounds[r].inputs == (if p.Input? then before.inputs[sender := p.bit] else before.inputs)
                    && rounds[r].vote1 == (if p.Vote1? then before.vote1[sender := p.ballot] else before.vote1)
                    && rounds[r].revote == (if p.Revote? then before.revote[sender := p.ballot] else before.revote))
    {
      var state := VoteAt(rounds, r);
      rounds := rounds[r := state];
      result := None;
      ghost var d := OnDelivered(n, t, state, sender, p);
      if state.outcome.Some? {
        assert outbox + Ballots(r, d) == outbox;
      } else {
        state := StorePayload(state, sender, p);
        assert Progress(n, t, state) == d;
        result := Act(r, state);
      }
    }
  }
}
