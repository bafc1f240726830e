/** One round of the graded vote over every run of deliveries, starts and forged ballots. */
module VoteRuns {
  import opened Quorums
  import opened Vote
  import opened VoteBoard
  import opened VoteNode

  /** The sets `ins`, `v1s` and `rvs` name the origins whose INPUT, VOTE1 and REVOTE was delivered here,
      finished or not. */
  datatype Node = Node(round: Round, started: bool, ins: set<int>, v1s: set<int>, rvs: set<int>)

  datatype System = System(board: Board, nodes: map<int, Node>)

  datatype Event =
    | Start(node: int, bit: int)
    | Deliver(node: int, origin: int, p: Payload)
    | Forge(origin: int, p: Payload)

  ghost function Init(c: Config): System {
    System(Board(map[], map[], map[]), map i | i in c.Honest() :: Node(FreshRound(), false, {}, {}, {}))
  }

  ghost predicate Blank(b: Board, j: int, p: Payload) {
    match p
    case Input(_) => j !in b.inputs
    case Vote1(_) => j !in b.vote1
    case Revote(_) => j !in b.revote
  }

  ghost predicate Legal(c: Config, s: System, e: Event) {
    match e
    case Start(i, _) => i in c.Honest() && i in s.nodes && !s.nodes[i].started
    case Deliver(i, j, p) => i in c.Honest() && i in s.nodes && OnBoard(s.board, j, p)
    case Forge(j, p) => j in c.byz && Blank(s.board, j, p)
  }

  function Put(b: Board, j: int, p: Payload): Board {
    match p
    case Input(bit) => b.(inputs := b.inputs[j := bit])
    case Vote1(v) => b.(vote1 := b.vote1[j := v])
    case Revote(v) => b.(revote := b.revote[j := v])
  }

  function Mark(nd: Node, j: int, p: Payload): Node {
    match p
    case Input(_) => nd.(ins := nd.ins + {j})
    case Vote1(_) => nd.(v1s := nd.v1s + {j})
    case Revote(_) => nd.(rvs := nd.rvs + {j})
  }

  ghost function Apply(c: Config, s: System, e: Event): System
    requires Legal(c, s, e)
  {
    match e
    case Start(i, bit) =>
      var nd := s.nodes[i].(started := true);
      if nd.round.outcome.Some? then s.(nodes := s.nodes[i := nd])
      else
        var p := Progress(c.n, c.t, nd.round);
        System(Publish(Put(s.board, i, Input(bit)), i, p), s.nodes[i := nd.(round := p.round)])
    case Deliver(i, j, p) =>
      var d := OnDelivered(c.n, c.t, s.nodes[i].round, j, p);
      System(Publish(s.board, i, d), s.nodes[i := Mark(s.nodes[i], j, p).(round := d.round)])
    case Forge(j, p) =>
      s.(board := Put(s.board, j, p))
  }

  ghost predicate Leads(c: Config, s: System, es: seq<Event>, s': System)
    decreases |es|
  {
    if es == [] then s == s'
    else Legal(c, s, es[0]) && Leads(c, Apply(c, s, es[0]), es[1..], s')
  }

  ghost predicate Reachable(c: Config, es: seq<Event>, s: System) {
    c.Valid() && Leads(c, Init(c), es, s)
  }

  // ----------------------------------------------------------------- invariant

  /** What a node works with is what was delivered to it, up to the moment it finished. */
  ghost predicate Tracks(nd: Node) {
    && nd.round.inputs.Keys <= nd.ins && nd.round.vote1.Keys <= nd.v1s && nd.round.revote.Keys <= nd.rvs
    && (nd.round.outcome.None? ==>
          nd.round.inputs.Keys == nd.ins && nd.round.vote1.Keys == nd.v1s && nd.round.revote.Keys == nd.rvs)
  }

  ghost predicate NodeInv(c: Config, b: Board, i: int, nd: Node) {
    && Follows(c, b, i, nd.round)
    && Served(c, nd.round)
    && Tracks(nd)
    && nd.ins <= b.inputs.Keys && nd.v1s <= b.vote1.Keys && nd.rvs <= b.revote.Keys
    && (i in b.inputs ==> nd.started)
    && (nd.started ==> i in b.inputs || nd.round.outcome.Some?)
  }

  ghost predicate Inv(c: Config, s: System) {
    && s.nodes.Keys == c.Honest()
    && OnIds(c, s.board)
    && AllInv(c, s.board, s.nodes)
  }

  ghost predicate AllInv(c: Config, b: Board, nodes: map<int, Node>) {
    forall i :: i in nodes ==> NodeInv(c, b, i, nodes[i])
  }

  lemma OtherInv(c: Config, b: Board, b': Board, k: int, nd: Node)
    requires NodeInv(c, b, k, nd) && Grows(b, b')
    requires k in b'.inputs ==> k in b.inputs
    requires k in b'.vote1 ==> k in b.vote1
    requires k in b'.revote ==> k in b.revote
    ensures NodeInv(c, b', k, nd)
  {
    FollowsGrows(c, b, b', k, nd.round);
  }

  lemma AfterMove(c: Config, s: System, i: int, nd: Node, b: Board, k: int)
    requires Inv(c, s) && i in c.Honest() && k in c.Honest() && Grows(s.board, b)
    requires b.inputs.Keys <= s.board.inputs.Keys + {i}
    requires b.vote1.Keys <= s.board.vote1.Keys + {i} && b.revote.Keys <= s.board.revote.Keys + {i}
    requires NodeInv(c, b, i, nd)
    ensures NodeInv(c, b, k, s.nodes[i := nd][k])
  {
    if k != i {
      OtherInv(c, s.board, b, k, s.nodes[k]);
    }
  }

  /** Nobody but `i` is touched when `i` moves and the board grows by what `i` wrote. */
  lemma MoveInv(c: Config, s: System, i: int, nd: Node, b: Board)
    requires Inv(c, s) && i in c.Honest() && Grows(s.board, b)
    requires b.inputs.Keys <= s.board.inputs.Keys + {i}
    requires b.vote1.Keys <= s.board.vote1.Keys + {i} && b.revote.Keys <= s.board.revote.Keys + {i}
    requires NodeInv(c, b, i, nd)
    ensures Inv(c, System(b, s.nodes[i := nd]))
  {
    var nodes := s.nodes[i := nd];
    assert nodes.Keys == c.Honest();
    forall k | k in nodes ensures NodeInv(c, b, k, nodes[k]) {
      AfterMove(c, s, i, nd, b, k);
    }
  }

  lemma PutGrows(b: Board, j: int, p: Payload)
    requires Blank(b, j, p)
    ensures Grows(b, Put(b, j, p))
  {
  }

  lemma StartInv(c: Config, s: System, i: int, bit: int)
    requires c.Valid() && Inv(c, s) && Legal(c, s, Start(i, bit))
    ensures Inv(c, Apply(c, s, Start(i, bit)))
  {
    var nd := s.nodes[i].(started := true);
    if nd.round.outcome.Some? {
      MoveInv(c, s, i, nd, s.board);
    } else {
      var b := Put(s.board, i, Input(bit));
      assert i !in s.board.inputs;
      PutGrows(s.board, i, Input(bit));
      FollowsGrows(c, s.board, b, i, nd.round);
      ProgressFollows(c, b, i, nd.round);
      var p := Progress(c.n, c.t, nd.round);
      MoveInv(c, s, i, nd.(round := p.round), Publish(b, i, p));
    }
  }

  lemma DeliverTracks(c: Config, nd: Node, j: int, p: Payload)
    requires Tracks(nd)
    ensures Tracks(Mark(nd, j, p).(round := OnDelivered(c.n, c.t, nd.round, j, p).round))
  {
    if nd.round.outcome.None? {
      RecordTracks(nd, j, p);
    }
  }

  lemma RecordTracks(nd: Node, j: int, p: Payload)
    requires Tracks(nd) && nd.round.outcome.None?
    ensures Tracks(Mark(nd, j, p).(round := Record(nd.round, j, p)))
  {
  }

  lemma DeliverInv(c: Config, s: System, i: int, j: int, p: Payload)
    requires c.Valid() && Inv(c, s) && Legal(c, s, Deliver(i, j, p))
    ensures Inv(c, Apply(c, s, Deliver(i, j, p)))
  {
    var nd := s.nodes[i];
    var d := OnDelivered(c.n, c.t, nd.round, j, p);
    DeliveredInv(c, s.board, i, nd, j, p);
    MoveInv(c, s, i, Mark(nd, j, p).(round := d.round), Publish(s.board, i, d));
  }

  lemma DeliveredInv(c: Config, b: Board, i: int, nd: Node, j: int, p: Payload)
    requires NodeInv(c, b, i, nd) && OnBoard(b, j, p)
    ensures var d := OnDelivered(c.n, c.t, nd.round, j, p);
            NodeInv(c, Publish(b, i, d), i, Mark(nd, j, p).(round := d.round)) && Grows(b, Publish(b, i, d))
  {
    DeliverFollows(c, b, i, nd.round, j, p);
    DeliverTracks(c, nd, j, p);
  }

  lemma ForgeInv(c: Config, s: System, j: int, p: Payload)
    requires c.Valid() && Inv(c, s) && Legal(c, s, Forge(j, p))
    ensures Inv(c, Apply(c, s, Forge(j, p)))
  {
    var b := Put(s.board, j, p);
    PutGrows(s.board, j, p);
    forall i | i in c.Honest() {
      OtherInv(c, s.board, b, i, s.nodes[i]);
    }
  }

  lemma {:induction false} RunInv(c: Config, s: System, es: seq<Event>, s': System)
    requires c.Valid() && Inv(c, s) && Leads(c, s, es, s')
    ensures Inv(c, s')
    decreases |es|
  {
    if es != [] {
      match es[0] {
        case Start(i, bit) => StartInv(c, s, i, bit);
        case Deliver(i, j, p) => DeliverInv(c, s, i, j, p);
        case Forge(j, p) => ForgeInv(c, s, j, p);
      }
      RunInv(c, Apply(c, s, es[0]), es[1..], s');
    }
  }

  lemma ReachableInv(c: Config, es: seq<Event>, s: System)
    requires Reachable(c, es, s)
    ensures Inv(c, s)
  {
    RunInv(c, Init(c), es, s);
  }
}
