/**
 One A-Cast instance over every run: messages duplicated, reordered or never delivered, and up to `t`
 nodes that send whatever they like under their own name. `ACastMany` shows that the system of all
 instances is, for each identifier, such a run.
 */
module ACastRuns {
  import opened Quorums
  import opened ACast

  /** `results` logs the calls of `SendResult`; `seen` remembers every message handled so far. */
  datatype Node<V> = Node(inst: Instance<V>, results: seq<V>, seen: set<Message<V>>)

  datatype System<V> = System(nodes: map<int, Node<V>>, sent: set<Message<V>>)

  datatype Event<V> =
    | Inject(m: Message<V>)              // an initial MSG, or anything signed by a Byzantine node
    | Receive(node: int, m: Message<V>)  // an honest node handles a message that was sent

  ghost function Init<V>(c: Config): System<V> {
    System(map i | i in c.Honest() :: Node(Fresh(), [], {}), {})
  }

  ghost function Absorb<V>(c: Config, i: int, nd: Node<V>, m: Message<V>): Node<V> {
    var r := Handle(c.n, c.t, i, nd.inst, m);
    Node(r.inst, nd.results + AsList(r.output), nd.seen + {m})
  }

  ghost function Emitted<V>(c: Config, i: int, nd: Node<V>, m: Message<V>): set<Message<V>> {
    var sent := Handle(c.n, c.t, i, nd.inst, m).sent;
    if sent.Some? then {sent.value} else {}
  }

  ghost predicate Legal<V>(c: Config, s: System<V>, e: Event<V>) {
    match e
    case Inject(m) => m.kind == MSG || m.from in c.byz
    case Receive(i, m) => i in c.Honest() && i in s.nodes && m in s.sent
  }

  ghost function Apply<V>(c: Config, s: System<V>, e: Event<V>): System<V>
    requires Legal(c, s, e)
  {
    match e
    case Inject(m) => s.(sent := s.sent + {m})
    case Receive(i, m) =>
      System(s.nodes[i := Absorb(c, i, s.nodes[i], m)], s.sent + Emitted(c, i, s.nodes[i], m))
  }

  /** The events `es` are possible one after the other from `s` and lead to `s'`. */
  ghost predicate Leads<V>(c: Config, s: System<V>, es: seq<Event<V>>, s': System<V>)
    decreases |es|
  {
    if es == [] then s == s'
    else Legal(c, s, es[0]) && Leads(c, Apply(c, s, es[0]), es[1..], s')
  }

  // ---------------------------------------------------------------- invariant

  /** Who sent a message of this kind carrying `v`. */
  ghost function By<V>(ms: set<Message<V>>, k: Kind, v: V): set<int> {
    set m | m in ms && m.kind == k && m.val == v :: m.from
  }

  ghost function Own<V>(ms: set<Message<V>>, i: int, k: Kind): set<Message<V>> {
    set m | m in ms && m.kind == k && m.from == i
  }

  ghost predicate Heard<V>(nd: Node<V>, v: V) {
    exists m :: m in nd.seen && m.kind == MSG && m.val == v
  }

  /** Node `i` has sent a message of kind `k` exactly when the flag is up, and only ever with one value. */
  ghost predicate OneShot<V>(sent: set<Message<V>>, i: int, k: Kind, flag: bool) {
    && (flag <==> Own(sent, i, k) != {})
    && (forall m, m' :: m in Own(sent, i, k) && m' in Own(sent, i, k) ==> m.val == m'.val)
  }

  /** While nothing is delivered the tallies are exactly the messages handled, and no threshold is left unserved. */
  ghost predicate Tallies<V(!new)>(c: Config, nd: Node<V>) {
    var st := nd.inst;
    !st.delivered ==>
      && (forall v :: Senders(st.receivedEcho, v) == By(nd.seen, ECHO, v))
      && (forall v :: Senders(st.receivedReady, v) == By(nd.seen, READY, v))
      && (forall v :: |Senders(st.receivedEcho, v)| >= c.n - c.t ==> st.sentReady)
      && (forall v :: |Senders(st.receivedReady, v)| >= c.t + 1 ==> st.sentReady)
      && (forall v :: |Senders(st.receivedReady, v)| < 2 * c.t + 1)
      && (forall v :: Heard(nd, v) ==> st.sentEcho)
  }

  ghost predicate NodeInv<V(!new)>(c: Config, i: int, nd: Node<V>, sent: set<Message<V>>) {
    && nd.seen <= sent
    && OneShot(sent, i, ECHO, nd.inst.sentEcho)
    && OneShot(sent, i, READY, nd.inst.sentReady)
    && EchoesHeard(i, nd, sent)
    && Tallies(c, nd)
    && Delivers(c, nd, sent)
  }

  /** What a node echoes it has received. */
  ghost predicate EchoesHeard<V(!new)>(i: int, nd: Node<V>, sent: set<Message<V>>) {
    forall m :: m in Own(sent, i, ECHO) ==> Heard(nd, m.val)
  }

  /** One output at most, with enough READYs behind it. */
  ghost predicate Delivers<V>(c: Config, nd: Node<V>, sent: set<Message<V>>) {
    && |nd.results| == (if nd.inst.delivered then 1 else 0)
    && (nd.inst.delivered ==> nd.inst.sentReady && |By(sent, READY, nd.results[0])| >= 2 * c.t + 1)
  }

  /** Every READY of an honest node is backed by a quorum of ECHOs. */
  ghost predicate Backed<V>(c: Config, sent: set<Message<V>>) {
    forall m :: m in sent && m.kind == READY && m.from in c.Honest() ==> |By(sent, ECHO, m.val)| >= c.n - c.t
  }

  ghost predicate Inv<V(!new)>(c: Config, s: System<V>) {
    && s.nodes.Keys == c.Honest()
    && (forall m :: m in s.sent && m.kind != MSG ==> m.from in c.ids)
    && (forall i :: i in c.Honest() ==> NodeInv(c, i, s.nodes[i], s.sent))
    && Backed(c, s.sent)
  }

  lemma ByGrows<V>(a: set<Message<V>>, b: set<Message<V>>, k: Kind, v: V)
    requires a <= b
    ensures By(a, k, v) <= By(b, k, v)
    ensures |By(a, k, v)| <= |By(b, k, v)|
  {
    SubsetCount(By(a, k, v), By(b, k, v));
  }

  /** What other nodes send does not disturb node `i`. */
  lemma Framed<V(!new)>(c: Config, i: int, nd: Node<V>, sent: set<Message<V>>, more: set<Message<V>>)
    requires NodeInv(c, i, nd, sent)
    requires forall m :: m in more && m.kind != MSG ==> m.from != i
    ensures NodeInv(c, i, nd, sent + more)
  {
    assert Own(sent + more, i, ECHO) == Own(sent, i, ECHO);
    assert Own(sent + more, i, READY) == Own(sent, i, READY);
    if nd.inst.delivered {
      ByGrows(sent, sent + more, READY, nd.results[0]);
    }
  }

  lemma BackedGrows<V>(c: Config, sent: set<Message<V>>, more: set<Message<V>>)
    requires Backed(c, sent)
    requires forall m :: m in more && m.kind == READY && m.from in c.Honest() ==> |By(sent, ECHO, m.val)| >= c.n - c.t
    ensures Backed(c, sent + more)
  {
    forall m | m in sent + more && m.kind == READY && m.from in c.Honest()
      ensures |By(sent + more, ECHO, m.val)| >= c.n - c.t
    {
      ByGrows(sent, sent + more, ECHO, m.val);
    }
  }

  lemma InitInv<V(!new)>(c: Config)
    requires c.Valid()
    ensures Inv<V>(c, Init(c))
  {
    var s := Init<V>(c);
    forall i | i in c.Honest() ensures NodeInv(c, i, s.nodes[i], s.sent) {
      var nd := s.nodes[i];
      forall v ensures By(nd.seen, ECHO, v) == {} && By(nd.seen, READY, v) == {} {}
    }
  }

  // ------------------------------------------------------------- preservation

  /** A MSG leaves every tally alone. */
  lemma OnMsgInv<V(!new)>(c: Config, i: int, nd: Node<V>, sent: set<Message<V>>, m: Message<V>)
    requires NodeInv(c, i, nd, sent) && m in sent && m.kind == MSG
    ensures NodeInv(c, i, Absorb(c, i, nd, m), sent + Emitted(c, i, nd, m))
  {
    var nd', out := Absorb(c, i, nd, m), Emitted(c, i, nd, m);
    assert forall v :: By(nd'.seen, ECHO, v) == By(nd.seen, ECHO, v);
    assert forall v :: By(nd'.seen, READY, v) == By(nd.seen, READY, v);
    assert Heard(nd', m.val);
    assert Own(sent + out, i, READY) == Own(sent, i, READY);
    if out == {} {
      assert sent + out == sent;
    } else {
      var e := Message(ECHO, m.uuid, m.val, i);
      assert out == {e};
      assert Own(sent + out, i, ECHO) == {e};
    }
    if nd.inst.delivered {
      ByGrows(sent, sent + out, READY, nd.results[0]);
    }
  }

  /** Handling an ECHO or a READY keeps the READY flag truthful. */
  lemma ReadySent<V>(c: Config, i: int, nd: Node<V>, sent: set<Message<V>>, m: Message<V>)
    requires OneShot(sent, i, READY, nd.inst.sentReady) && m.kind != MSG
    ensures OneShot(sent + Emitted(c, i, nd, m), i, READY, Absorb(c, i, nd, m).inst.sentReady)
  {
    ReadyOnce(c.n, c.t, i, nd.inst, m);
    OneMore(sent, Handle(c.n, c.t, i, nd.inst, m).sent, i, nd.inst.sentReady);
  }

  lemma ReadyOnce<V>(n: nat, t: nat, i: int, inst: Instance<V>, m: Message<V>)
    requires m.kind != MSG
    ensures var h := Handle(n, t, i, inst, m);
            && h.inst.sentReady == (inst.sentReady || h.sent.Some?)
            && (h.sent.Some? ==> !inst.sentReady && h.sent.value == Message(READY, m.uuid, m.val, i))
  {
  }

  lemma OneMore<V>(sent: set<Message<V>>, more: Option<Message<V>>, i: int, flag: bool)
    requires OneShot(sent, i, READY, flag)
    requires more.Some? ==> !flag && more.value.kind == READY && more.value.from == i
    ensures OneShot(sent + (if more.Some? then {more.value} else {}), i, READY, flag || more.Some?)
  {
    if more.Some? {
      assert Own(sent + {more.value}, i, READY) == {more.value};
    } else {
      assert sent + {} == sent;
    }
  }

  /** The tallies as sets of handled messages: one ECHO or READY adds its sender to one of them. */
  lemma ByInsert<V(!new)>(seen: set<Message<V>>, m: Message<V>)
    ensures By(seen + {m}, m.kind, m.val) == By(seen, m.kind, m.val) + {m.from}
    ensures forall k, v :: k != m.kind || v != m.val ==> By(seen + {m}, k, v) == By(seen, k, v)
  {
  }

  lemma HeardInsert<V(!new)>(nd: Node<V>, nd': Node<V>, m: Message<V>)
    requires nd'.seen == nd.seen + {m} && m.kind != MSG
    ensures forall v :: Heard(nd', v) <==> Heard(nd, v)
  {
  }

  lemma SendersAdd<V(!new)>(m: map<V, set<int>>, v: V, from: int)
    ensures Senders(AddToSet(m, v, from), v) == Senders(m, v) + {from}
    ensures forall w :: w != v ==> Senders(AddToSet(m, v, from), w) == Senders(m, w)
  {
  }

  lemma EchoTallies<V(!new)>(c: Config, nd: Node<V>, nd': Node<V>, m: Message<V>)
    requires Tallies(c, nd) && m.kind == ECHO && !nd.inst.delivered
    requires nd'.seen == nd.seen + {m}
    requires nd'.inst == nd.inst.(receivedEcho := AddToSet(nd.inst.receivedEcho, m.val, m.from),
                                  sentReady := nd'.inst.sentReady)
    requires nd.inst.sentReady ==> nd'.inst.sentReady
    requires |Senders(nd'.inst.receivedEcho, m.val)| >= c.n - c.t ==> nd'.inst.sentReady
    ensures Tallies(c, nd')
  {
    ByInsert(nd.seen, m);
    HeardInsert(nd, nd', m);
    SendersAdd(nd.inst.receivedEcho, m.val, m.from);
    forall v ensures Senders(nd'.inst.receivedEcho, v) == By(nd'.seen, ECHO, v) {
      assert v == m.val || By(nd'.seen, ECHO, v) == By(nd.seen, ECHO, v);
    }
  }

  lemma ReadyTallies<V(!new)>(c: Config, nd: Node<V>, nd': Node<V>, m: Message<V>)
    requires Tallies(c, nd) && m.kind == READY && !nd.inst.delivered
    requires nd'.seen == nd.seen + {m}
    requires nd'.inst == nd.inst.(receivedReady := AddToSet(nd.inst.receivedReady, m.val, m.from),
                                  sentReady := nd'.inst.sentReady)
    requires nd.inst.sentReady ==> nd'.inst.sentReady
    requires |Senders(nd'.inst.receivedReady, m.val)| >= c.t + 1 ==> nd'.inst.sentReady
    requires |Senders(nd'.inst.receivedReady, m.val)| < 2 * c.t + 1
    ensures Tallies(c, nd')
  {
    ByInsert(nd.seen, m);
    HeardInsert(nd, nd', m);
    SendersAdd(nd.inst.receivedReady, m.val, m.from);
    forall v ensures Senders(nd'.inst.receivedReady, v) == By(nd'.seen, READY, v) {
      assert v == m.val || By(nd'.seen, READY, v) == By(nd.seen, READY, v);
    }
  }

  /** What an ECHO or a READY makes a node send leaves its own ECHOs alone. */
  lemma OwnEchoes<V(!new)>(c: Config, i: int, nd: Node<V>, sent: set<Message<V>>, m: Message<V>)
    requires m.kind != MSG
    ensures Own(sent + Emitted(c, i, nd, m), i, ECHO) == Own(sent, i, ECHO)
  {
    ReadyOnce(c.n, c.t, i, nd.inst, m);
  }

  lemma EchoesStay<V(!new)>(c: Config, i: int, nd: Node<V>, sent: set<Message<V>>, m: Message<V>)
    requires m.kind != MSG && EchoesHeard(i, nd, sent) && OneShot(sent, i, ECHO, nd.inst.sentEcho)
    ensures EchoesHeard(i, Absorb(c, i, nd, m), sent + Emitted(c, i, nd, m))
    ensures OneShot(sent + Emitted(c, i, nd, m), i, ECHO, Absorb(c, i, nd, m).inst.sentEcho)
  {
    OwnEchoes(c, i, nd, sent, m);
    HeardInsert(nd, Absorb(c, i, nd, m), m);
  }

  lemma EchoTally<V(!new)>(c: Config, i: int, nd: Node<V>, m: Message<V>)
    requires Tallies(c, nd) && m.kind == ECHO
    ensures Tallies(c, Absorb(c, i, nd, m))
  {
    if !nd.inst.delivered {
      EchoTallies(c, nd, Absorb(c, i, nd, m), m);
    }
  }

  lemma ReadyTally<V(!new)>(c: Config, i: int, nd: Node<V>, m: Message<V>)
    requires Tallies(c, nd) && m.kind == READY
    ensures Tallies(c, Absorb(c, i, nd, m))
  {
    if !Absorb(c, i, nd, m).inst.delivered {
      ReadyTallies(c, nd, Absorb(c, i, nd, m), m);
    }
  }

  lemma EchoDelivers<V(!new)>(c: Config, i: int, nd: Node<V>, sent: set<Message<V>>, m: Message<V>)
    requires Delivers(c, nd, sent) && m.kind == ECHO
    ensures Delivers(c, Absorb(c, i, nd, m), sent + Emitted(c, i, nd, m))
  {
    if nd.inst.delivered {
      ByGrows(sent, sent + Emitted(c, i, nd, m), READY, nd.results[0]);
    }
  }

  /** Delivery rests on the READYs counted. */
  lemma ReadyDelivers<V(!new)>(c: Config, i: int, nd: Node<V>, sent: set<Message<V>>, m: Message<V>)
    requires Delivers(c, nd, sent) && Tallies(c, nd) && nd.seen <= sent && m in sent && m.kind == READY
    ensures Delivers(c, Absorb(c, i, nd, m), sent + Emitted(c, i, nd, m))
  {
    var more := sent + Emitted(c, i, nd, m);
    if nd.inst.delivered {
      ByGrows(sent, more, READY, nd.results[0]);
    } else if Absorb(c, i, nd, m).inst.delivered {
      ByInsert(nd.seen, m);
      ByGrows(nd.seen + {m}, more, READY, m.val);
    }
  }

  lemma OnEchoInv<V(!new)>(c: Config, i: int, nd: Node<V>, sent: set<Message<V>>, m: Message<V>)
    requires NodeInv(c, i, nd, sent) && m in sent && m.kind == ECHO
    ensures NodeInv(c, i, Absorb(c, i, nd, m), sent + Emitted(c, i, nd, m))
  {
    EchoTally(c, i, nd, m);
    EchoesStay(c, i, nd, sent, m);
    ReadySent(c, i, nd, sent, m);
    EchoDelivers(c, i, nd, sent, m);
  }

  lemma OnReadyInv<V(!new)>(c: Config, i: int, nd: Node<V>, sent: set<Message<V>>, m: Message<V>)
    requires NodeInv(c, i, nd, sent) && m in sent && m.kind == READY
    ensures NodeInv(c, i, Absorb(c, i, nd, m), sent + Emitted(c, i, nd, m))
  {
    ReadyTally(c, i, nd, m);
    EchoesStay(c, i, nd, sent, m);
    ReadySent(c, i, nd, sent, m);
    ReadyDelivers(c, i, nd, sent, m);
  }

  /** Some honest node is behind any READY tally of `t + 1`. */
  lemma ReadyVouched<V(!new)>(c: Config, sent: set<Message<V>>, seen: set<Message<V>>, v: V)
    requires c.Valid() && Backed(c, sent) && seen <= sent
    requires forall m :: m in sent && m.kind != MSG ==> m.from in c.ids
    requires |By(seen, READY, v)| >= c.t + 1
    ensures |By(sent, ECHO, v)| >= c.n - c.t
  {
    var h := MemberOutside(By(seen, READY, v), c.byz);
    var w :| w in seen && w.kind == READY && w.val == v && w.from == h;
    assert w in sent && w.from in c.Honest();
  }

  /** A READY is sent only on top of a quorum of ECHOs: counted directly, or vouched for by an honest READY. */
  lemma EmittedBacked<V(!new)>(c: Config, i: int, nd: Node<V>, sent: set<Message<V>>, m: Message<V>)
    requires c.Valid() && NodeInv(c, i, nd, sent) && Backed(c, sent) && m in sent
    requires forall m :: m in sent && m.kind != MSG ==> m.from in c.ids
    requires m.kind != MSG && Emitted(c, i, nd, m) != {}
    ensures |By(sent, ECHO, m.val)| >= c.n - c.t
  {
    Counted(c, i, nd, m);
    if m.kind == ECHO {
      ByGrows(nd.seen + {m}, sent, ECHO, m.val);
    } else {
      ReadyVouched(c, sent, nd.seen + {m}, m.val);
    }
  }

  /** A READY goes out when a count has reached its threshold. */
  lemma Counted<V(!new)>(c: Config, i: int, nd: Node<V>, m: Message<V>)
    requires Tallies(c, nd) && m.kind != MSG && Emitted(c, i, nd, m) != {}
    ensures |By(nd.seen + {m}, m.kind, m.val)| >= if m.kind == ECHO then c.n - c.t else c.t + 1
  {
    ByInsert(nd.seen, m);
  }

  lemma SentShape<V>(n: nat, t: nat, i: int, inst: Instance<V>, m: Message<V>)
    ensures var sent := Handle(n, t, i, inst, m).sent;
            sent.Some? ==> sent.value == Message(if m.kind == MSG then ECHO else READY, m.uuid, m.val, i)
  {
  }

  lemma EmittedShape<V>(c: Config, i: int, nd: Node<V>, m: Message<V>)
    ensures forall x :: x in Emitted(c, i, nd, m) ==>
              x.from == i && x.val == m.val && x.kind == (if m.kind == MSG then ECHO else READY)
  {
    SentShape(c.n, c.t, i, nd.inst, m);
  }

  lemma ReceiveInv<V(!new)>(c: Config, i: int, nd: Node<V>, sent: set<Message<V>>, m: Message<V>)
    requires NodeInv(c, i, nd, sent) && m in sent
    ensures NodeInv(c, i, Absorb(c, i, nd, m), sent + Emitted(c, i, nd, m))
  {
    match m.kind
    case MSG => OnMsgInv(c, i, nd, sent, m);
    case ECHO => OnEchoInv(c, i, nd, sent, m);
    case READY => OnReadyInv(c, i, nd, sent, m);
  }

  lemma AfterMove<V(!new)>(c: Config, s: System<V>, i: int, nd': Node<V>, out: set<Message<V>>, j: int)
    requires Inv(c, s) && i in c.Honest() && j in c.Honest()
    requires forall x :: x in out ==> x.from == i && x.kind != MSG
    requires NodeInv(c, i, nd', s.sent + out)
    ensures NodeInv(c, j, s.nodes[i := nd'][j], s.sent + out)
  {
    if j != i {
      Framed(c, j, s.nodes[j], s.sent, out);
    }
  }

  /** Node `i` moves to `nd'` and sends `out`; everyone else is framed. */
  lemma MoveInv<V(!new)>(c: Config, s: System<V>, i: int, nd': Node<V>, out: set<Message<V>>)
    requires c.Valid() && Inv(c, s) && i in c.Honest()
    requires forall x :: x in out ==> x.from == i && x.kind != MSG
    requires forall x :: x in out && x.kind == READY ==> |By(s.sent, ECHO, x.val)| >= c.n - c.t
    requires NodeInv(c, i, nd', s.sent + out)
    ensures Inv(c, System(s.nodes[i := nd'], s.sent + out))
  {
    assert s.nodes[i := nd'].Keys == c.Honest();
    forall j | j in c.Honest() {
      AfterMove(c, s, i, nd', out, j);
    }
    BackedGrows(c, s.sent, out);
  }

  lemma InjectInv<V(!new)>(c: Config, s: System<V>, m: Message<V>)
    requires c.Valid() && Inv(c, s) && (m.kind == MSG || m.from in c.byz)
    ensures Inv(c, s.(sent := s.sent + {m}))
  {
    forall i | i in c.Honest() {
      Framed(c, i, s.nodes[i], s.sent, {m});
    }
    BackedGrows(c, s.sent, {m});
  }

  lemma StepInv<V(!new)>(c: Config, s: System<V>, e: Event<V>)
    requires c.Valid() && Inv(c, s) && Legal(c, s, e)
    ensures Inv(c, Apply(c, s, e))
  {
    match e
    case Inject(m) =>
      InjectInv(c, s, m);
    case Receive(i, m) =>
      var nd, out := s.nodes[i], Emitted(c, i, s.nodes[i], m);
      ReceiveInv(c, i, nd, s.sent, m);
      EmittedShape(c, i, nd, m);
      if m.kind != MSG && out != {} {
        EmittedBacked(c, i, nd, s.sent, m);
      }
      MoveInv(c, s, i, Absorb(c, i, nd, m), out);
  }

  lemma {:induction false} RunInv<V(!new)>(c: Config, s: System<V>, es: seq<Event<V>>, s': System<V>)
    requires c.Valid() && Inv(c, s) && Leads(c, s, es, s')
    ensures Inv(c, s')
    decreases |es|
  {
    if es != [] {
      StepInv(c, s, es[0]);
      RunInv(c, Apply(c, s, es[0]), es[1..], s');
    }
  }
}
