/**
 The agreement loop over every run: any interleaving of deliveries, any coin at each node, and up to `t`
 nodes whose INPUTs and COMPLETEs are arbitrary and whose VOTE1s and REVOTEs keep given rules.
 */
module ABARuns {
  import opened Quorums
  import opened Vote
  import opened VoteBoard
  import opened VoteNode
  import opened ABA

  /**
   `boards` holds what was A-Cast by the vote in each round, `completes` the COMPLETE of each origin. The `rules` of
   the ballots never change.
   */
  datatype System = System(rules: Rules, nodes: map<int, Aba>, boards: map<int, Board>, completes: map<int, int>)

  datatype Event =
    | Local(node: int, e: LocalEvent)
    | ByzInput(origin: int, round: int, bit: int)
    | ByzVote1(origin: int, round: int, ballot: Ballot)
    | ByzRevote(origin: int, round: int, ballot: Ballot)
    | ByzComplete(origin: int, value: int)

  ghost function Init(c: Config, rules: Rules, estimates: map<int, int>): System
    requires c.Honest() <= estimates.Keys
  {
    System(rules, map i | i in c.Honest() :: FreshAba(estimates[i]), map[], map[])
  }

  function BoardAt(boards: map<int, Board>, r: int): Board {
    if r in boards then boards[r] else Board(map[], map[], map[])
  }

  /** Deliveries come from the board. */
  ghost predicate Delivered(s: System, e: LocalEvent) {
    match e
    case VoteDelivered(r, sender, p) => OnBoard(BoardAt(s.boards, r), sender, p)
    case CompleteDelivered(sender, v) => sender in s.completes && s.completes[sender] == v
    case _ => true
  }

  ghost predicate Legal(c: Config, s: System, e: Event) {
    match e
    case Local(i, le) => i in c.Honest() && i in s.nodes && Ready(s.nodes[i], le) && Delivered(s, le)
    case ByzInput(j, r, _) => j in c.byz && j !in BoardAt(s.boards, r).inputs
    case ByzVote1(j, r, v) =>
      var b := BoardAt(s.boards, r);
      j in c.byz && j !in b.vote1 && NewBallots(c, b, b.(vote1 := b.vote1[j := v]), s.rules)
    case ByzRevote(j, r, v) =>
      var b := BoardAt(s.boards, r);
      j in c.byz && j !in b.revote && NewBallots(c, b, b.(revote := b.revote[j := v]), s.rules)
    case ByzComplete(j, _) => j in c.byz && j !in s.completes
  }

  function CastBallots(boards: map<int, Board>, i: int, r: int, p: Progressed): map<int, Board> {
    boards[r := Publish(BoardAt(boards, r), i, p)]
  }

  function CastInput(boards: map<int, Board>, i: int, r: int, bit: int): map<int, Board> {
    var b := BoardAt(boards, r);
    boards[r := b.(inputs := b.inputs[i := bit])]
  }

  function CastEntry(boards: map<int, Board>, i: int, entry: Option<Entry>): map<int, Board> {
    if entry.None? then boards
    else CastBallots(CastInput(boards, i, entry.value.round, entry.value.bit), i, entry.value.round, entry.value.p)
  }

  function CastComplete(completes: map<int, int>, i: int, v: Option<int>): map<int, int> {
    if v.None? then completes else completes[i := v.value]
  }

  function EventRound(e: LocalEvent): int {
    if e.VoteDelivered? then e.round else 0
  }

  ghost function Apply(c: Config, s: System, e: Event): System
    requires Legal(c, s, e)
  {
    match e
    case Local(i, le) =>
      var (nd, fx) := LocalStep(c.n, c.t, s.nodes[i], le);
      var boards := if fx.ballots.None? then s.boards else CastBallots(s.boards, i, EventRound(le), fx.ballots.value);
      System(s.rules, s.nodes[i := nd], CastEntry(boards, i, fx.entry), CastComplete(s.completes, i, fx.complete))
    case ByzInput(j, r, bit) => s.(boards := CastInput(s.boards, j, r, bit))
    case ByzVote1(j, r, v) =>
      var b := BoardAt(s.boards, r);
      s.(boards := s.boards[r := b.(vote1 := b.vote1[j := v])])
    case ByzRevote(j, r, v) =>
      var b := BoardAt(s.boards, r);
      s.(boards := s.boards[r := b.(revote := b.revote[j := v])])
    case ByzComplete(j, v) => s.(completes := s.completes[j := v])
  }

  ghost predicate Leads(c: Config, s: System, es: seq<Event>, s': System)
    decreases |es|
  {
    if es == [] then s == s'
    else Legal(c, s, es[0]) && Leads(c, Apply(c, s, es[0]), es[1..], s')
  }

  // ------------------------------------------------------------------ vocabulary

  ghost function Out(s: System, i: int, r: int): Option<Outcome>
    requires i in s.nodes
  {
    VoteAt(s.nodes[i].votes, r).outcome
  }

  ghost predicate HasOut(c: Config, s: System, i: int, r: int, o: Outcome) {
    i in c.Honest() && i in s.nodes && Out(s, i, r) == Some(o)
  }

  /** Some code-following node finished round `r` with value `v` and grade 2. */
  ghost predicate StrongAt(c: Config, s: System, r: int, v: int) {
    exists i :: HasOut(c, s, i, r, Outcome(v, 2))
  }

  ghost predicate StrongSomewhere(c: Config, s: System, v: int) {
    exists r :: StrongAt(c, s, r, v)
  }

  /** Every code-following node that entered round `r` did so with `v`. */
  ghost predicate InputsAre(c: Config, s: System, r: int, v: int) {
    forall j :: j in c.Honest() && j in BoardAt(s.boards, r).inputs ==> BoardAt(s.boards, r).inputs[j] == v
  }

  // ------------------------------------------------------------------- invariant

  ghost predicate RoundOk(c: Config, s: System, r: int) {
    && OnIds(c, BoardAt(s.boards, r))
    && Obeys(c, BoardAt(s.boards, r), s.rules)
    && (forall i :: i in c.Honest() && i in s.nodes ==>
          Follows(c, BoardAt(s.boards, r), i, VoteAt(s.nodes[i].votes, r)))
  }

  /** Where the INPUT of a later round came from. */
  ghost predicate InputTraced(b: Board, nd: Aba, i: int, r: int)
    requires i in b.inputs
  {
    var bit := b.inputs[i];
    r >= 2 ==>
      && VoteAt(nd.votes, r - 1).outcome.Some?
      && var o := VoteAt(nd.votes, r - 1).outcome.value;
         (o.conf >= 1 && bit == o.value) || o.conf == 0 || (nd.decided && bit == nd.decision)
  }

  /** Rounds ahead are blank, rounds behind finished, and the current result is the current round's. */
  ghost predicate VotesOk(nd: Aba) {
    && (forall r :: r > nd.round ==> VoteAt(nd.votes, r) == FreshRound())
    && (forall r :: 1 <= r < nd.round ==> VoteAt(nd.votes, r).outcome.Some?)
    && (nd.voteResult.Some? ==> VoteAt(nd.votes, nd.round).outcome == nd.voteResult)
  }

  ghost predicate InputsOk(boards: map<int, Board>, nd: Aba, i: int) {
    forall r :: i in BoardAt(boards, r).inputs ==> 1 <= r <= nd.round && InputTraced(BoardAt(boards, r), nd, i, r)
  }

  /** The bookkeeping of node `i` that has nothing to do with its votes. */
  ghost predicate Books(c: Config, s: System, i: int, nd: Aba, completes: map<int, int>) {
    && (nd.sentComplete <==> i in completes)
    && (i in completes ==> StrongSomewhere(c, s, completes[i]))
    && (nd.decided ==> StrongSomewhere(c, s, nd.decision))
    && (forall v :: CountOf(nd.counts, v) <= c.ids)
    && (forall v, j :: j in CountOf(nd.counts, v) ==> j in completes && completes[j] == v)
    && nd.results == (if nd.decided then [nd.decision] else [])
  }

  ghost predicate NodeOk(c: Config, s: System, i: int)
    requires i in s.nodes
  {
    VotesOk(s.nodes[i]) && InputsOk(s.boards, s.nodes[i], i) && Books(c, s, i, s.nodes[i], s.completes)
  }

  ghost predicate Shape(c: Config, s: System) {
    && s.nodes.Keys == c.Honest()
    && s.completes.Keys <= c.ids
    && (forall r {:trigger BoardAt(s.boards, r)} :: RoundOk(c, s, r))
    && (forall i :: i in c.Honest() ==> NodeOk(c, s, i))
  }

  /** All grade 2 outcomes, of all rounds, carry one value. */
  ghost predicate OneValue(c: Config, s: System) {
    forall r, r', v, v' :: StrongAt(c, s, r, v) && StrongAt(c, s, r', v') ==> v == v'
  }

  /** Somebody finished round `q` in a way that does not rule `v` out. */
  ghost predicate Open(c: Config, s: System, q: int, v: int) {
    exists j, o :: HasOut(c, s, j, q, o) && (o.conf == 0 || o.value == v)
  }

  /** Before a grade 2 outcome no round was already settled on another value. */
  ghost predicate Unopposed(c: Config, s: System) {
    forall r, q, v :: StrongAt(c, s, r, v) && 1 <= q < r ==> Open(c, s, q, v)
  }

  /** Wherever round 1 was entered with `v` alone, so was every other round, and nobody decided anything else. */
  ghost predicate Steady(c: Config, s: System) {
    forall v :: (v == 0 || v == 1) && InputsAre(c, s, 1, v) ==> AllInputs(c, s, v) && DecisionsAre(c, s, v)
  }

  ghost predicate AllInputs(c: Config, s: System, v: int) {
    forall r :: InputsAre(c, s, r, v)
  }

  ghost predicate DecisionsAre(c: Config, s: System, v: int) {
    forall j :: j in c.Honest() && j in s.nodes && s.nodes[j].decided ==> s.nodes[j].decision == v
  }

  /** The invariant of every run; what the rules promise depends on them. */
  ghost predicate Inv(c: Config, s: System) {
    && Shape(c, s)
    && (Binding(c, s.rules) ==> OneValue(c, s) && Unopposed(c, s))
    && (Faithful(c, s.rules) ==> Steady(c, s))
  }
}
