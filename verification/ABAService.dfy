/**
 The agreement service of one node: re-entrant rounds, the buffer for future rounds and the COMPLETE count.
 The coin protocol's result for a round arrives as an event.
 */
module ABAService {
  import opened Quorums
  import opened Vote
  import opened ABA
  import opened ABATrace
  import V = VoteService

  /** Round `r` of the vote is not over. */
  predicate Open(rounds: map<int, Round>, r: int) {
    r in rounds ==> rounds[r].outcome.None?
  }

  /** Entering a round, given what the vote service makes of it. */
  lemma Enters(n: nat, t: nat, tr: Trace, r: nat, votes: map<int, Round>, ballots: seq<V.Out>, result: Option<Outcome>)
    requires var before := VoteAt(tr.nd.votes, r);
      if before.outcome.Some? then votes == tr.nd.votes[r := before] && ballots == tr.ballots && result.None?
      else var p := Progress(n, t, before);
           && votes == tr.nd.votes[r := p.round]
           && ballots == tr.ballots + [V.SentInput(r, tr.nd.estimate)] + V.Ballots(r, p)
           && result == p.round.outcome
    ensures EnterT(n, t, tr, r) ==
      Trace(tr.nd.(round := r, voteResult := result, coin := None, votes := votes), ballots, tr.completes)
  {
    var before := VoteAt(tr.nd.votes, r);
    if before.outcome.Some? {
      assert tr.ballots + [] == tr.ballots;
    } else {
      var p := Progress(n, t, before);
      EnterBallots(tr.ballots, r, tr.nd.estimate, p);
    }
  }

  lemma EnterBallots(ballots: seq<V.Out>, r: nat, bit: int, p: Progressed)
    ensures ballots + EntryOuts(Some(Entry(r, bit, p))) == ballots + [V.SentInput(r, bit)] + V.Ballots(r, p)
  {
  }

  lemma VoteApplies(n: nat, t: nat, tr: Trace, r: int, sender: int, p: Payload)
    ensures var d := OnDelivered(n, t, VoteAt(tr.nd.votes, r), sender, p);
            var tr1 := Trace(tr.nd.(votes := tr.nd.votes[r := d.round]), tr.ballots + V.Ballots(r, d), tr.completes);
            Apply(n, t, tr, VoteDelivered(r, sender, p)) ==
              if V.News(VoteAt(tr.nd.votes, r), d.round).Some? && r == tr.nd.round
              then AdvanceT(n, t, tr1.(nd := tr1.nd.(voteResult := d.round.outcome)))
              else tr1
  {
    var d := OnDelivered(n, t, VoteAt(tr.nd.votes, r), sender, p);
    assert tr.ballots + V.Ballots(r, d) + [] == tr.ballots + V.Ballots(r, d);
    assert tr.completes + [] == tr.completes;
  }

  lemma CoinApplies(n: nat, t: nat, tr: Trace, r: int, coin: int)
    requires r >= 1
    ensures Apply(n, t, tr, CoinResult(r, coin)) ==
              if r == tr.nd.round then AdvanceT(n, t, tr.(nd := tr.nd.(coin := Some(coin)))) else tr
  {
    assert tr.ballots + [] == tr.ballots;
    assert tr.completes + [] == tr.completes;
  }

  /** A node after one more COMPLETE. */
  ghost function Completed(t: nat, tr: Trace, sender: int, v: int): Trace {
    var senders := CountOf(tr.nd.counts, v) + {sender};
    var nd := tr.nd.(counts := tr.nd.counts[v := senders]);
    if |senders| >= t + 1 && !nd.decided then Decided(tr.(nd := nd), v) else tr.(nd := nd)
  }

  ghost function Decided(tr: Trace, v: int): Trace {
    Trace(tr.nd.(decided := true, decision := v, results := tr.nd.results + [v], sentComplete := true), tr.ballots,
          if tr.nd.sentComplete then tr.completes else tr.completes + [v])
  }

  lemma CompleteApplies(n: nat, t: nat, tr: Trace, sender: int, v: int)
    ensures Apply(n, t, tr, CompleteDelivered(sender, v)) == Completed(t, tr, sender, v)
  {
    assert tr.ballots + [] + [] == tr.ballots;
    assert tr.completes + [] == tr.completes;
  }

  /** Moving on is entering the next round with the new estimate. */
  lemma Advances(n: nat, t: nat, tr: Trace, estimate: int, sentComplete: bool, completes: seq<int>)
    requires tr.nd.voteResult.Some? && tr.nd.coin.Some?
    requires estimate == NextEstimate(tr.nd, tr.nd.voteResult.value, tr.nd.coin.value)
    requires sentComplete == (tr.nd.sentComplete || SendsComplete(tr.nd, tr.nd.voteResult.value))
    requires completes ==
      tr.completes + (if SendsComplete(tr.nd, tr.nd.voteResult.value) then [tr.nd.voteResult.value.value] else [])
    ensures AdvanceT(n, t, tr) ==
      EnterT(n, t, Trace(tr.nd.(estimate := estimate, sentComplete := sentComplete), tr.ballots, completes),
             tr.nd.round + 1)
  {
    var o, nd := tr.nd.voteResult.value, tr.nd.(estimate := estimate, sentComplete := sentComplete);
    var (nd', entry) := EnterRound(n, t, nd, tr.nd.round + 1);
    var complete := if SendsComplete(tr.nd, o) then Some(o.value) else None;
    assert Advance(n, t, tr.nd) == (nd', complete, entry);
    assert completes == tr.completes + Maybe(complete);
  }

  lemma Stays(n: nat, t: nat, tr: Trace)
    requires tr.nd.voteResult.None? || tr.nd.coin.None?
    ensures AdvanceT(n, t, tr) == tr
  {
    assert tr.ballots + [] == tr.ballots;
    assert tr.completes + [] == tr.completes;
  }

  class ABAService {
    const id: int
    const n: nat
    const t: nat
    const vote: V.VoteService
    var round: nat
    var estimate: int
    var voteResult: Option<Outcome>
    var coin: Option<int>
    var counts: map<int, set<int>>
    var decided: bool
    var decision: int
    var sentComplete: bool
    var completes: seq<int>
    var results: seq<int>
    var future: map<int, seq<LocalEvent>>
    ghost const initial: int
    ghost var received: seq<LocalEvent>
    ghost var log: seq<Logged>

    constructor (id: int, n: nat, t: nat, estimate: int)
      ensures this.id == id && this.n == n && this.t == t && initial == estimate && fresh(vote)
      ensures Sound() && received == [] && log == []
    {
      this.id, this.n, this.t := id, n, t;
      vote := new V.VoteService(id, n, t);
      round, this.estimate := 0, estimate;
      voteResult, coin, counts := None, None, map[];
      decided, decision, sentComplete := false, 0, false;
      completes, results, future := [], [], map[];
      initial, received, log := estimate, [], [];
    }

    ghost predicate Valid()
      reads this
    {
      vote.n == n && vote.t == t && Filed(future)
    }

    /** The node and its broadcasts so far. */
    ghost function Now(): Trace
      reads this, vote
    {
      Trace(Aba(round, estimate, vote.rounds, voteResult, coin, counts, decided, decision, sentComplete, results),
            vote.outbox, completes)
    }

    /** The node with its log and its buffers. */
    ghost function Here(): Spot
      reads this, vote
    {
      Spot(Now(), log, future)
    }

    /** Between messages: the node is what its log replays to, and the log and the buffers hold what came in. */
    ghost predicate Sound()
      reads this, vote
    {
      && Valid() && Settled(future, round) && OnTime(log, round)
      && Gained([], map[], log, future, received)
      && Now() == Replay(n, t, Trace(FreshAba(initial), [], []), log)
      && Legal(n, t, Trace(FreshAba(initial), [], []), log)
    }

    method Enter(r: nat)
      requires Valid()
      modifies this`round, this`voteResult, this`coin, vote
      ensures Valid() && round == r && Now() == EnterT(n, t, old(Now()), r)
      ensures Open(old(vote.rounds), r) ==> old(vote.outbox) + [V.SentInput(r, estimate)] <= vote.outbox
      ensures !Open(old(vote.rounds), r) ==> vote.outbox == old(vote.outbox)
    {
      round := r;
      voteResult, coin := None, None;
      var result := vote.StartRound(r, estimate);
      if result.Some? {
        voteResult := result;
      }
      Enters(n, t, old(Now()), r, vote.rounds, vote.outbox, voteResult);
    }

    /**
     Enters the next round and takes the events buffered for it; each may finish the round and enter the next
     one from within the loop. Nothing is lost: every event is held as often as before.
     */
    method StartRound(r: nat) returns (ghost taken: seq<Logged>)
      requires Valid() && r == round + 1
      modifies this, vote
      ensures Valid() && round >= r
      ensures Turned(n, t, old(log), old(future), EnterT(n, t, old(Now()), r), r - 1, Here(), taken, [])
      ensures Open(old(vote.rounds), r) ==> old(vote.outbox) + [V.SentInput(r, old(estimate))] <= vote.outbox
      decreases |Above(future, round)|, 0
    {
      taken := [];
      ghost var a := Here();
      Enter(r);
      ghost var mid := Here();
      if r in future {
        AboveShrinks(future, future, r - 1, r);
        taken := TakeBuffer(r);
        ReplayGrows(n, t, mid.tr, taken);
      } else {
        TurnEmpty(n, t, a, r - 1, mid);
      }
    }

    method TakeBuffer(r: nat) returns (ghost taken: seq<Logged>)
      requires Valid() && r == round && r in future
      modifies this, vote
      ensures Valid() && round >= r
      ensures Turned(n, t, old(log), old(future), old(Now()), r - 1, Here(), taken, [])
      decreases |Above(future, round)|, 3
    {
      taken := [];
      ghost var start := Here();
      var msgs := future[r];
      var a := 0;
      TurnEmpty(n, t, start, r, start);
      while a < |msgs|
        invariant 0 <= a <= |msgs| && Valid() && round >= r
        invariant Turned(n, t, start.log, start.future, start.tr, r, Here(), taken, msgs[..a])
      {
        ghost var before, mid := taken, Here();
        AboveShrinks(start.future, future, r, round);
        ghost var more := Dispatch(msgs[a]);
        TurnNext(n, t, start, r, mid, Here(), before, more, msgs, a);
        taken := before + more;
        a := a + 1;
      }
      assert msgs[..a] == msgs;
      TurnDrop(n, t, start, start.tr, r, Here(), taken);
      future := future - {r};
    }

    /** Takes one event that is not ahead of the node. */
    method Dispatch(e: LocalEvent) returns (ghost taken: seq<Logged>)
      requires Valid() && !e.Start? && RoundOf(e) <= round
      modifies this, vote
      ensures Valid() && round >= old(round)
      ensures taken != [] && taken[0] == Logged(e, old(round))
      ensures Turned(n, t, old(log), old(future), old(Now()), old(round), Here(), taken, [e])
      decreases |Above(future, round)|, 2, 2
    {
      ghost var a, first := Here(), Logged(e, round);
      log := log + [first];
      assert Here() == a.(log := a.log + [first]);
      ghost var rest := React(e);
      TurnFirst(n, t, a, first, Here(), rest);
      taken := [first] + rest;
    }

    method React(e: LocalEvent) returns (ghost rest: seq<Logged>)
      requires Valid() && !e.Start?
      modifies this, vote
      ensures Valid() && round >= old(round)
      ensures Turned(n, t, old(log), old(future), Apply(n, t, old(Now()), e), old(round), Here(), rest, [])
      decreases |Above(future, round)|, 2, 1
    {
      match e {
        case VoteDelivered(r, sender, p) => rest := DispatchVote(r, sender, p);
        case CoinResult(r, c) => rest := DispatchCoin(r, c);
        case CompleteDelivered(sender, v) =>
          rest := [];
          CompleteApplies(n, t, Now(), sender, v);
          HandleComplete(sender, v);
          TurnEmpty(n, t, old(Here()), round, Here());
      }
    }

    method DispatchVote(r: int, sender: int, p: Payload) returns (ghost rest: seq<Logged>)
      requires Valid()
      modifies this, vote
      ensures Valid() && round >= old(round)
      ensures Turned(n, t, old(log), old(future), Apply(n, t, old(Now()), VoteDelivered(r, sender, p)), old(round),
                     Here(), rest, [])
      decreases |Above(future, round)|, 2, 0
    {
      rest := [];
      VoteApplies(n, t, Now(), r, sender, p);
      var result := vote.OnDeliver(r, sender, p);
      if result.Some? && r == round {
        voteResult := result;
        rest := CheckRoundProgress();
      } else {
        TurnEmpty(n, t, old(Here()), round, Here());
      }
    }

    method DispatchCoin(r: int, c: int) returns (ghost rest: seq<Logged>)
      requires Valid()
      modifies this, vote
      ensures Valid() && round >= old(round)
      ensures Turned(n, t, old(log), old(future), Apply(n, t, old(Now()), CoinResult(r, c)), old(round), Here(), rest,
                     [])
      decreases |Above(future, round)|, 2, 0
    {
      rest := [];
      if r >= 1 {
        CoinApplies(n, t, Now(), r, c);
      }
      if r >= 1 && r == round {
        coin := Some(c);
        rest := CheckRoundProgress();
      } else {
        TurnEmpty(n, t, old(Here()), round, Here());
      }
    }

    /** Counts a COMPLETE; `t + 1` of them decide, once. */
    method HandleComplete(sender: int, v: int)
      requires Valid()
      modifies this`counts, this`decided, this`decision, this`sentComplete, this`completes, this`results
      ensures Valid()
      ensures Now() == Completed(t, old(Now()), sender, v)
    {
      ghost var tr := Now();
      var senders := CountOf(counts, v) + {sender};
      counts := counts[v := senders];
      if |senders| >= t + 1 && !decided {
        Decide(v);
      } else {
        assert Now() == tr.(nd := tr.nd.(counts := counts));
      }
    }

    /** Sends the result, and COMPLETE if none was sent. */
    method Decide(v: int)
      requires Valid()
      modifies this`decided, this`decision, this`sentComplete, this`completes, this`results
      ensures Valid() && Now() == Decided(old(Now()), v)
    {
      ghost var tr := Now();
      decided, decision := true, v;
      results := results + [v];
      Announce(v);
      assert Now().nd == tr.nd.(decided := true, decision := v, results := results, sentComplete := true);
    }

    /** Casts COMPLETE, once. */
    method Announce(v: int)
      modifies this`sentComplete, this`completes
      ensures sentComplete && completes == (if old(sentComplete) then old(completes) else old(completes) + [v])
    {
      if !sentComplete {
        completes := completes + [v];
        sentComplete := true;
      }
    }

    /** With both results of the round in, sets the estimate, may cast COMPLETE and enters the next round. */
    method CheckRoundProgress() returns (ghost taken: seq<Logged>)
      requires Valid()
      modifies this, vote
      ensures Valid() && round >= old(round)
      ensures Turned(n, t, old(log), old(future), AdvanceT(n, t, old(Now())), old(round), Here(), taken, [])
      ensures old(voteResult).None? || old(coin).None? ==> Here() == old(Here())
      ensures old(voteResult).Some? && old(coin).Some? ==> round > old(round)
      ensures old(voteResult).Some? && old(coin).Some? && Open(old(vote.rounds), old(round) + 1) ==>
        old(vote.outbox)
        + [V.SentInput(old(round) + 1,
                       if old(decided) then old(decision)
                       else if old(voteResult).value.conf == 2 || old(voteResult).value.conf == 1
                       then old(voteResult).value.value
                       else old(coin).value)] <= vote.outbox
      decreases |Above(future, round)|, 1
    {
      taken := [];
      if voteResult.Some? && coin.Some? {
        taken := MoveOn();
      } else {
        Stays(n, t, Now());
        TurnEmpty(n, t, Here(), round, Here());
      }
    }

    method MoveOn() returns (ghost taken: seq<Logged>)
      requires Valid() && voteResult.Some? && coin.Some?
      modifies this, vote
      ensures Valid() && round > old(round)
      ensures Turned(n, t, old(log), old(future), AdvanceT(n, t, old(Now())), old(round), Here(), taken, [])
      ensures Open(old(vote.rounds), old(round) + 1) ==>
        old(vote.outbox)
        + [V.SentInput(old(round) + 1,
                       if old(decided) then old(decision)
                       else if old(voteResult).value.conf == 2 || old(voteResult).value.conf == 1
                       then old(voteResult).value.value
                       else old(coin).value)] <= vote.outbox
      decreases |Above(future, round)|, 1, 0
    {
      NewEstimate();
      taken := StartRound(round + 1);
    }

    method NewEstimate()
      requires Valid() && voteResult.Some? && coin.Some?
      modifies this`estimate, this`sentComplete, this`completes
      ensures Valid() && AdvanceT(n, t, old(Now())) == EnterT(n, t, Now(), round + 1)
      ensures estimate == (if decided then decision
                           else if voteResult.value.conf == 2 || voteResult.value.conf == 1 then voteResult.value.value
                           else coin.value)
      ensures completes == old(completes) + (if !decided && voteResult.value.conf == 2 && !old(sentComplete)
                                             then [voteResult.value.value] else [])
    {
      var value, conf := voteResult.value.value, voteResult.value.conf;
      ghost var tr := Now();
      if decided {
        estimate := decision;
      } else if conf == 2 {
        estimate := value;
        Announce(value);
      } else if conf == 1 {
        estimate := value;
      } else {
        estimate := coin.value;
      }
      assert Now() == Trace(tr.nd.(estimate := estimate, sentComplete := sentComplete), tr.ballots, completes);
      Advances(n, t, tr, estimate, sentComplete, completes);
    }

    method TakeStart() returns (ghost taken: seq<Logged>)
      requires Valid() && round == 0
      modifies this, vote
      ensures Valid() && round >= 1
      ensures taken != [] && taken[0] == Logged(LocalEvent.Start, 0)
      ensures Turned(n, t, old(log), old(future), old(Now()), 0, Here(), taken, [LocalEvent.Start])
    {
      ghost var a, first := Here(), Logged(LocalEvent.Start, 0);
      log := log + [first];
      assert Here() == a.(log := a.log + [first]);
      StartApplies(n, t, a.tr);
      ghost var rest := StartRound(1);
      TurnFirst(n, t, a, first, Here(), rest);
      taken := [first] + rest;
    }

    method Start() returns (ghost taken: seq<Logged>)
      requires Sound() && round == 0
      modifies this, vote
      ensures Sound() && received == old(received) + [LocalEvent.Start] && log == old(log) + taken
      ensures taken != [] && taken[0] == Logged(LocalEvent.Start, 0)
    {
      ghost var tr, l, f, came := Now(), log, future, received;
      taken := TakeStart();
      FinishTurn(n, t, Trace(FreshAba(initial), [], []), tr, Now(), l, taken, log, f, future, came, LocalEvent.Start);
      received := came + [LocalEvent.Start];
    }

    /** Buffers events of rounds that have not begun, takes all others at once. */
    method OnMessage(e: LocalEvent) returns (ghost taken: seq<Logged>)
      requires Sound() && !e.Start?
      modifies this, vote
      ensures Sound() && received == old(received) + [e] && log == old(log) + taken
      ensures (e.VoteDelivered? || e.CoinResult?) && e.round > old(round) ==>
        && taken == [] && Now() == old(Now())
        && future == old(future)[e.round := (if e.round in old(future) then old(future)[e.round] else []) + [e]]
      ensures e.CompleteDelivered? || ((e.VoteDelivered? || e.CoinResult?) && e.round <= old(round)) ==>
        taken != [] && taken[0] == Logged(e, old(round))
    {
      if Roundly(e) && RoundOf(e) > round {
        taken := [];
        Buffer(e);
      } else {
        taken := Take(e);
      }
    }

    /** Files an event under its round. */
    method Buffer(e: LocalEvent)
      requires Sound() && Roundly(e) && RoundOf(e) > round
      modifies this`future, this`received
      ensures Sound() && received == old(received) + [e]
      ensures future == old(future)[RoundOf(e) := WaitingAt(old(future), RoundOf(e)) + [e]]
    {
      ghost var f, came := future, received;
      var r := RoundOf(e);
      FileOne(log, future, e);
      future := future[r := WaitingAt(future, r) + [e]];
      GainedChain([], map[], log, f, log, future, came, [e]);
      received := came + [e];
    }

    method Take(e: LocalEvent) returns (ghost taken: seq<Logged>)
      requires Sound() && !e.Start? && RoundOf(e) <= round
      modifies this, vote
      ensures Sound() && received == old(received) + [e] && log == old(log) + taken
      ensures taken != [] && taken[0] == Logged(e, old(round))
    {
      ghost var tr, l, f, came := Now(), log, future, received;
      taken := Dispatch(e);
      FinishTurn(n, t, Trace(FreshAba(initial), [], []), tr, Now(), l, taken, log, f, future, came, e);
      received := came + [e];
    }
  }

  lemma StartApplies(n: nat, t: nat, tr: Trace)
    ensures Apply(n, t, tr, LocalEvent.Start) == EnterT(n, t, tr, 1)
  {
    assert tr.ballots + [] == tr.ballots;
    assert tr.completes + [] == tr.completes;
  }

  /** What one turn adds to the history. */
  lemma FinishTurn(n: nat, t: nat, start: Trace, tr: Trace, tr': Trace, log: seq<Logged>, taken: seq<Logged>,
                   log': seq<Logged>, future: map<int, seq<LocalEvent>>, future': map<int, seq<LocalEvent>>,
                   received: seq<LocalEvent>, e: LocalEvent)
    requires tr == Replay(n, t, start, log) && tr' == Replay(n, t, tr, taken) && log' == log + taken
    requires Legal(n, t, start, log) && Legal(n, t, tr, taken)
    requires Gained([], map[], log, future, received) && Gained(log, future, log', future', [e])
    requires OnTime(log, tr.nd.round) && OnTime(taken, tr'.nd.round) && tr.nd.round <= tr'.nd.round
    ensures OnTime(log', tr'.nd.round)
    ensures tr' == Replay(n, t, start, log') && Legal(n, t, start, log')
    ensures Gained([], map[], log', future', received + [e])
  {
    ReplayMore(n, t, start, log, taken);
    LegalMore(n, t, start, log, taken);
    GainedChain([], map[], log, future, log', future', received, [e]);
  }
}
