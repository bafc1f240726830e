/** The agreement loop at one node: rounds of vote plus coin, and the COMPLETE threshold. */
module ABA {
  import opened Quorums
  import opened Vote

  /** `votes` is the vote service's state per round; `results` logs what was sent to the application. */
  datatype Aba = Aba(
    round: nat,
    estimate: int,
    votes: map<int, Round>,
    voteResult: Option<Outcome>,
    coin: Option<int>,
    counts: map<int, set<int>>,
    decided: bool,
    decision: int,
    sentComplete: bool,
    results: seq<int>)

  function FreshAba(estimate: int): Aba {
    Aba(0, estimate, map[], None, None, map[], false, 0, false, [])
  }

  /** Entering a round: the INPUT that is broadcast, and whatever the vote service could already act on. */
  datatype Entry = Entry(round: nat, bit: int, p: Progressed)

  /** What one event makes a node broadcast: ballots of the round of the event, a COMPLETE, a new round's INPUT. */
  datatype Effects = Effects(ballots: Option<Progressed>, complete: Option<int>, entry: Option<Entry>)

  function EnterRound(n: nat, t: nat, nd: Aba, r: nat): (Aba, Option<Entry>) {
    var vr := VoteAt(nd.votes, r);
    var nd1 := nd.(round := r, voteResult := None, coin := None);
    if vr.outcome.Some? then
      (nd1.(votes := nd.votes[r := vr]), None)
    else
      var p := Progress(n, t, vr);
      (nd1.(votes := nd.votes[r := p.round], voteResult := p.round.outcome), Some(Entry(r, nd.estimate, p)))
  }

  /** The estimate for the next round: a decision overrides the vote, the vote overrides the coin. */
  function NextEstimate(nd: Aba, o: Outcome, coin: int): int {
    if nd.decided then nd.decision
    else if o.conf == 2 || o.conf == 1 then o.value
    else coin
  }

  predicate SendsComplete(nd: Aba, o: Outcome) {
    !nd.decided && o.conf == 2 && !nd.sentComplete
  }

  /** With both the vote and the coin in, the node moves to the next round. */
  function Advance(n: nat, t: nat, nd: Aba): (Aba, Option<int>, Option<Entry>) {
    if nd.voteResult.Some? && nd.coin.Some? then
      var o := nd.voteResult.value;
      var nd1 := nd.(estimate := NextEstimate(nd, o, nd.coin.value),
                     sentComplete := nd.sentComplete || SendsComplete(nd, o));
      var (nd2, entry) := EnterRound(n, t, nd1, nd.round + 1);
      (nd2, if SendsComplete(nd, o) then Some(o.value) else None, entry)
    else
      (nd, None, None)
  }

  datatype LocalEvent =
    | Start
    | VoteDelivered(round: int, sender: int, p: Payload)
    | CoinResult(round: int, coin: int)
    | CompleteDelivered(sender: int, value: int)

  /** The vote of round `r` moved on as `d` says; if that finished the current round its outcome counts. */
  function TakeVote(n: nat, t: nat, nd: Aba, r: int, d: Progressed): (Aba, Effects) {
    var nd1 := nd.(votes := nd.votes[r := d.round]);
    if VoteAt(nd.votes, r).outcome.None? && d.round.outcome.Some? && r == nd.round then
      var (nd2, complete, entry) := Advance(n, t, nd1.(voteResult := d.round.outcome));
      (nd2, Effects(Some(d), complete, entry))
    else
      (nd1, Effects(Some(d), None, None))
  }

  function OnVote(n: nat, t: nat, nd: Aba, r: int, sender: int, p: Payload): (Aba, Effects) {
    TakeVote(n, t, nd, r, OnDelivered(n, t, VoteAt(nd.votes, r), sender, p))
  }

  function OnCoin(n: nat, t: nat, nd: Aba, r: int, coin: int): (Aba, Effects) {
    if r == nd.round then
      var (nd1, complete, entry) := Advance(n, t, nd.(coin := Some(coin)));
      (nd1, Effects(None, complete, entry))
    else
      (nd, Effects(None, None, None))
  }

  function CountOf(counts: map<int, set<int>>, v: int): set<int> {
    if v in counts then counts[v] else {}
  }

  function OnComplete(t: nat, nd: Aba, sender: int, v: int): (Aba, Effects) {
    var counts := nd.counts[v := CountOf(nd.counts, v) + {sender}];
    if |counts[v]| >= t + 1 && !nd.decided then
      (nd.(counts := counts, decided := true, decision := v, results := nd.results + [v], sentComplete := true),
       Effects(None, if nd.sentComplete then None else Some(v), None))
    else
      (nd.(counts := counts), Effects(None, None, None))
  }

  function LocalStep(n: nat, t: nat, nd: Aba, e: LocalEvent): (Aba, Effects) {
    match e
    case Start =>
      var (nd1, entry) := EnterRound(n, t, nd, 1);
      (nd1, Effects(None, None, entry))
    case VoteDelivered(r, sender, p) => OnVote(n, t, nd, r, sender, p)
    case CoinResult(r, coin) => OnCoin(n, t, nd, r, coin)
    case CompleteDelivered(sender, v) => OnComplete(t, nd, sender, v)
  }

  /** When the loop lets an event through: rounds that have not begun are buffered, and `Start` comes first. */
  predicate Ready(nd: Aba, e: LocalEvent) {
    match e
    case Start => nd.round == 0
    case VoteDelivered(r, _, _) => r <= nd.round
    case CoinResult(r, _) => 1 <= r <= nd.round
    case CompleteDelivered(_, _) => true
  }
}
