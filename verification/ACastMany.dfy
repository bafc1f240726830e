/**
 All instances of A-Cast at once. Each node keeps a table of instances; for every identifier the system is one
 instance of `ACastRuns`, so its theorems hold of each.
 */
module ACastMany {
  import opened Quorums
  import opened ACast
  import opened ACastRuns
  import opened ACastTheorems

  /** A node's table, what it has broadcast, what it has delivered by identifier, and the messages it has handled. */
  datatype Hub<V> = Hub(instances: map<string, Instance<V>>, outbox: seq<Message<V>>, handed: seq<(string, V)>,
                        log: seq<Message<V>>)

  function FreshHub<V>(): Hub<V> {
    Hub(map[], [], [], [])
  }

  function Named<V>(u: string, v: Option<V>): seq<(string, V)> {
    if v.Some? then [(u, v.value)] else []
  }

  /** What a reaction to `m` does to the table; all other instances stay. */
  function Put<V>(h: Hub<V>, m: Message<V>, r: Reaction<V>): Hub<V> {
    Hub(h.instances[m.uuid := r.inst], h.outbox + AsList(r.sent), h.handed + Named(m.uuid, r.output), h.log + [m])
  }

  /** One message: the instance it names reacts. */
  function Serve<V(==)>(n: nat, t: nat, id: int, h: Hub<V>, m: Message<V>): Hub<V> {
    Put(h, m, Handle(n, t, id, InstanceOf(h.instances, m.uuid), m))
  }

  // ------------------------------------------------------------- one identifier

  /** The messages of one identifier, in order. */
  function Of<V>(log: seq<Message<V>>, u: string): seq<Message<V>> {
    if log == [] then []
    else Of(log[..|log| - 1], u) + (if log[|log| - 1].uuid == u then [log[|log| - 1]] else [])
  }

  /** What was delivered under one identifier. */
  function Part<V>(handed: seq<(string, V)>, u: string): seq<V> {
    if handed == [] then []
    else Part(handed[..|handed| - 1], u) + (if handed[|handed| - 1].0 == u then [handed[|handed| - 1].1] else [])
  }

  /** How a node of an instance reacts to a message. */
  type React<!V> = (Instance<V>, Message<V>) -> Reaction<V>

  function Handling<V(==)>(n: nat, t: nat, id: int): React<V> {
    (inst, m) => Handle(n, t, id, inst, m)
  }

  ghost function Joined<V>(nd: Node<V>, r: Reaction<V>, m: Message<V>): Node<V> {
    Node(r.inst, nd.results + AsList(r.output), nd.seen + {m})
  }

  /** A node of one instance that has handled the messages `ms` one after the other. */
  ghost function After<V>(react: React<V>, ms: seq<Message<V>>): Node<V> {
    if ms == [] then Node(Fresh(), [], {})
    else
      var nd, m := After(react, ms[..|ms| - 1]), ms[|ms| - 1];
      Joined(nd, react(nd.inst, m), m)
  }

  lemma OfMore<V>(log: seq<Message<V>>, m: Message<V>, u: string)
    ensures Of(log + [m], u) == if m.uuid == u then Of(log, u) + [m] else Of(log, u)
  {
    assert (log + [m])[..|log|] == log;
  }

  lemma PartMore<V>(handed: seq<(string, V)>, w: string, v: Option<V>, u: string)
    ensures Part(handed + Named(w, v), u) == if w == u then Part(handed, u) + AsList(v) else Part(handed, u)
  {
    if v.Some? {
      assert (handed + [(w, v.value)])[..|handed|] == handed;
    } else {
      assert handed + [] == handed;
    }
  }

  lemma AfterMore<V>(react: React<V>, ms: seq<Message<V>>, m: Message<V>)
    ensures After(react, ms + [m]) == Joined(After(react, ms), react(After(react, ms).inst, m), m)
  {
    assert (ms + [m])[..|ms|] == ms;
  }

  // -------------------------------------------------------------------- the hub

  /** An instance is what the messages of its identifier made of it; there is none without messages. */
  ghost predicate Kept<V>(react: React<V>, h: Hub<V>, u: string) {
    if u in h.instances then h.instances[u] == After(react, Of(h.log, u)).inst else Of(h.log, u) == []
  }

  /** What was delivered under `u` is what its instance delivered. */
  ghost predicate Delivered<V>(react: React<V>, h: Hub<V>, u: string) {
    Part(h.handed, u) == After(react, Of(h.log, u)).results
  }

  /** The broadcasts are those of the instances, in the order of the messages. */
  ghost function Broadcasts<V>(react: React<V>, log: seq<Message<V>>): seq<Message<V>> {
    if log == [] then []
    else
      var past, m := log[..|log| - 1], log[|log| - 1];
      Broadcasts(react, past) + AsList(react(After(react, Of(past, m.uuid)).inst, m).sent)
  }

  /** The hub remembers: table, deliveries and broadcasts are those its log determines. */
  ghost predicate Remembers<V>(react: React<V>, h: Hub<V>) {
    && (forall u :: Kept(react, h, u))
    && (forall u :: Delivered(react, h, u))
    && h.outbox == Broadcasts(react, h.log)
  }

  lemma FreshRemembers<V>(react: React<V>)
    ensures Remembers(react, FreshHub())
  {
    var h := FreshHub<V>();
    forall u ensures Kept(react, h, u) && Delivered(react, h, u) {
    }
  }

  lemma StillKept<V>(react: React<V>, h: Hub<V>, m: Message<V>, r: Reaction<V>, u: string)
    requires Kept(react, h, u) && (m.uuid == u ==> r == react(After(react, Of(h.log, u)).inst, m))
    ensures Kept(react, Put(h, m, r), u)
  {
    OfMore(h.log, m, u);
    if m.uuid == u {
      AfterMore(react, Of(h.log, u), m);
    }
  }

  lemma StillDelivered<V>(react: React<V>, h: Hub<V>, m: Message<V>, r: Reaction<V>, u: string)
    requires Delivered(react, h, u) && (m.uuid == u ==> r == react(After(react, Of(h.log, u)).inst, m))
    ensures Delivered(react, Put(h, m, r), u)
  {
    OfMore(h.log, m, u);
    PartMore(h.handed, m.uuid, r.output, u);
    if m.uuid == u {
      AfterMore(react, Of(h.log, u), m);
    }
  }

  /** One more message keeps table, deliveries and broadcasts in step with the log. */
  lemma PutRemembers<V>(react: React<V>, h: Hub<V>, m: Message<V>, r: Reaction<V>)
    requires Remembers(react, h) && r == react(After(react, Of(h.log, m.uuid)).inst, m)
    ensures Remembers(react, Put(h, m, r))
  {
    var h' := Put(h, m, r);
    forall u ensures Kept(react, h', u) {
      StillKept(react, h, m, r, u);
    }
    forall u ensures Delivered(react, h', u) {
      StillDelivered(react, h, m, r, u);
    }
    assert h'.log[..|h'.log| - 1] == h.log;
  }

  /** The reaction of the instance in the table is that of the instance the log determines. */
  lemma ServeIs<V>(n: nat, t: nat, id: int, h: Hub<V>, m: Message<V>)
    requires Kept(Handling(n, t, id), h, m.uuid)
    ensures var react := Handling<V>(n, t, id);
            Serve(n, t, id, h, m) == Put(h, m, react(After(react, Of(h.log, m.uuid)).inst, m))
  {
    assert InstanceOf(h.instances, m.uuid) == After(Handling(n, t, id), Of(h.log, m.uuid)).inst;
  }

  lemma ServeRemembers<V>(n: nat, t: nat, id: int, h: Hub<V>, m: Message<V>)
    requires Remembers(Handling(n, t, id), h)
    ensures Remembers(Handling(n, t, id), Serve(n, t, id, h, m))
  {
    var react := Handling<V>(n, t, id);
    assert Kept(react, h, m.uuid);
    ServeIs(n, t, id, h, m);
    PutRemembers(react, h, m, react(After(react, Of(h.log, m.uuid)).inst, m));
  }

  // ------------------------------------------------------------------------ runs

  datatype Net<V> = Net(hubs: map<int, Hub<V>>, sent: set<Message<V>>)

  ghost function Start<V>(c: Config): Net<V> {
    Net(map i | i in c.Honest() :: FreshHub(), {})
  }

  ghost predicate May<V>(c: Config, s: Net<V>, e: Event<V>) {
    match e
    case Inject(m) => m.kind == MSG || m.from in c.byz
    case Receive(i, m) => i in c.Honest() && i in s.hubs && m in s.sent
  }

  ghost function Does<V>(c: Config, s: Net<V>, e: Event<V>): Net<V>
    requires May(c, s, e)
  {
    match e
    case Inject(m) => s.(sent := s.sent + {m})
    case Receive(i, m) =>
      var h := Serve(c.n, c.t, i, s.hubs[i], m);
      Net(s.hubs[i := h], s.sent + (set x | x in h.outbox[|s.hubs[i].outbox|..]))
  }

  ghost predicate Goes<V>(c: Config, s: Net<V>, es: seq<Event<V>>, s': Net<V>)
    decreases |es|
  {
    if es == [] then s == s' else May(c, s, es[0]) && Goes(c, Does(c, s, es[0]), es[1..], s')
  }

  ghost predicate AllRemember<V>(c: Config, s: Net<V>) {
    s.hubs.Keys == c.Honest() && forall i :: i in s.hubs ==> Remembers(Handling(c.n, c.t, i), s.hubs[i])
  }

  // ------------------------------------------------------------------ projection

  /** A node as one identifier sees it. */
  ghost function Seen<V>(c: Config, i: int, log: seq<Message<V>>, u: string): Node<V> {
    After(Handling(c.n, c.t, i), Of(log, u))
  }

  ghost function Views<V>(c: Config, hubs: map<int, Hub<V>>, u: string): map<int, Node<V>> {
    map i | i in hubs :: Seen(c, i, hubs[i].log, u)
  }

  ghost function Under<V>(sent: set<Message<V>>, u: string): set<Message<V>> {
    set m | m in sent && m.uuid == u
  }

  /** The system as one identifier sees it. */
  ghost function At<V>(c: Config, s: Net<V>, u: string): System<V> {
    System(Views(c, s.hubs, u), Under(s.sent, u))
  }

  /** The events of one identifier. */
  function Concerning<V>(es: seq<Event<V>>, u: string): seq<Event<V>> {
    if es == [] then []
    else if es[0].m.uuid == u then [es[0]] + Concerning(es[1..], u)
    else Concerning(es[1..], u)
  }

  lemma ViewsMore<V(!new)>(c: Config, hubs: map<int, Hub<V>>, i: int, h: Hub<V>, u: string, nd: Node<V>)
    requires i in hubs && Seen(c, i, h.log, u) == nd
    ensures Views(c, hubs[i := h], u) == Views(c, hubs, u)[i := nd]
  {
  }

  lemma ViewsSame<V(!new)>(c: Config, hubs: map<int, Hub<V>>, i: int, h: Hub<V>, u: string)
    requires i in hubs && Of(h.log, u) == Of(hubs[i].log, u)
    ensures Views(c, hubs[i := h], u) == Views(c, hubs, u)
  {
    ViewsMore(c, hubs, i, h, u, Seen(c, i, hubs[i].log, u));
  }

  /** What a message makes a hub send carries the identifier of the message. */
  lemma Sends<V(!new)>(c: Config, s: Net<V>, i: int, m: Message<V>)
    requires AllRemember(c, s) && May(c, s, Receive(i, m))
    ensures var s', r := Does(c, s, Receive(i, m)), Handle(c.n, c.t, i, Seen(c, i, s.hubs[i].log, m.uuid).inst, m);
            && s'.hubs == s.hubs[i := Put(s.hubs[i], m, r)]
            && s'.sent == s.sent + (if r.sent.Some? then {r.sent.value} else {})
            && (r.sent.Some? ==> r.sent.value.uuid == m.uuid)
  {
    var h := s.hubs[i];
    assert Kept(Handling(c.n, c.t, i), h, m.uuid);
    ServeIs(c.n, c.t, i, h, m);
    var r := Handle(c.n, c.t, i, Seen(c, i, h.log, m.uuid).inst, m);
    SentShape(c.n, c.t, i, Seen(c, i, h.log, m.uuid).inst, m);
    NewSent(h.outbox, r.sent);
  }

  lemma UnderSame<V(!new)>(sent: set<Message<V>>, more: Option<Message<V>>, u: string)
    requires more.Some? ==> more.value.uuid != u
    ensures Under(sent + (if more.Some? then {more.value} else {}), u) == Under(sent, u)
  {
  }

  lemma UnderMore<V(!new)>(sent: set<Message<V>>, more: Option<Message<V>>, u: string)
    requires more.Some? ==> more.value.uuid == u
    ensures Under(sent + (if more.Some? then {more.value} else {}), u)
            == Under(sent, u) + (if more.Some? then {more.value} else {})
  {
  }

  lemma NewSent<V(!new)>(outbox: seq<Message<V>>, more: Option<Message<V>>)
    ensures (set x | x in (outbox + AsList(more))[|outbox|..]) == if more.Some? then {more.value} else {}
  {
    assert (outbox + AsList(more))[|outbox|..] == AsList(more);
  }

  lemma ElsewhereStays<V(!new)>(c: Config, s: Net<V>, i: int, m: Message<V>, u: string)
    requires AllRemember(c, s) && May(c, s, Receive(i, m)) && m.uuid != u
    ensures At(c, Does(c, s, Receive(i, m)), u) == At(c, s, u)
  {
    Sends(c, s, i, m);
    var r := Handle(c.n, c.t, i, Seen(c, i, s.hubs[i].log, m.uuid).inst, m);
    OfMore(s.hubs[i].log, m, u);
    ViewsSame(c, s.hubs, i, Put(s.hubs[i], m, r), u);
    UnderSame(s.sent, r.sent, u);
  }

  lemma HereReceives<V(!new)>(c: Config, s: Net<V>, i: int, m: Message<V>)
    requires AllRemember(c, s) && May(c, s, Receive(i, m))
    ensures Legal(c, At(c, s, m.uuid), Receive(i, m))
    ensures At(c, Does(c, s, Receive(i, m)), m.uuid) == Apply(c, At(c, s, m.uuid), Receive(i, m))
  {
    var u, nd := m.uuid, Seen(c, i, s.hubs[i].log, m.uuid);
    var r := Handle(c.n, c.t, i, nd.inst, m);
    Sends(c, s, i, m);
    OfMore(s.hubs[i].log, m, u);
    AfterMore(Handling(c.n, c.t, i), Of(s.hubs[i].log, u), m);
    ViewsMore(c, s.hubs, i, Put(s.hubs[i], m, r), u, Joined(nd, r, m));
    assert Joined(nd, r, m) == Absorb(c, i, nd, m);
    UnderMore(s.sent, r.sent, u);
  }

  lemma Injects<V(!new)>(c: Config, s: Net<V>, m: Message<V>, u: string)
    requires May(c, s, Inject(m))
    ensures m.uuid != u ==> At(c, Does(c, s, Inject(m)), u) == At(c, s, u)
    ensures m.uuid == u ==>
      Legal(c, At(c, s, u), Inject(m)) && At(c, Does(c, s, Inject(m)), u) == Apply(c, At(c, s, u), Inject(m))
  {
    assert Under(s.sent + {m}, u) == if m.uuid == u then Under(s.sent, u) + {m} else Under(s.sent, u);
  }

  /** One event is an event of the instance it concerns and nothing to the others. */
  lemma OneEvent<V(!new)>(c: Config, s: Net<V>, e: Event<V>, u: string)
    requires AllRemember(c, s) && May(c, s, e)
    ensures e.m.uuid != u ==> At(c, Does(c, s, e), u) == At(c, s, u)
    ensures e.m.uuid == u ==> Legal(c, At(c, s, u), e) && At(c, Does(c, s, e), u) == Apply(c, At(c, s, u), e)
  {
    match e
    case Inject(m) => Injects(c, s, m, u);
    case Receive(i, m) =>
      if m.uuid == u {
        HereReceives(c, s, i, m);
      } else {
        ElsewhereStays(c, s, i, m, u);
      }
  }

  lemma AllStill<V>(c: Config, s: Net<V>, e: Event<V>)
    requires AllRemember(c, s) && May(c, s, e)
    ensures AllRemember(c, Does(c, s, e))
  {
    if e.Receive? {
      ServeRemembers(c.n, c.t, e.node, s.hubs[e.node], e.m);
    }
  }

  /** A run of all instances is, for every identifier, a run of its instance. */
  lemma {:induction false} EachIsARun<V(!new)>(c: Config, s: Net<V>, es: seq<Event<V>>, s': Net<V>, u: string)
    requires AllRemember(c, s) && Goes(c, s, es, s')
    ensures Leads(c, At(c, s, u), Concerning(es, u), At(c, s', u)) && AllRemember(c, s')
    decreases |es|
  {
    if es != [] {
      var s1 := Does(c, s, es[0]);
      AllStill(c, s, es[0]);
      EachIsARun(c, s1, es[1..], s', u);
      OneEvent(c, s, es[0], u);
      if es[0].m.uuid == u {
        LeadsFirst(c, At(c, s, u), es[0], At(c, s1, u), Concerning(es[1..], u), At(c, s', u));
      }
    }
  }

  lemma LeadsFirst<V>(c: Config, a: System<V>, e: Event<V>, b: System<V>, es: seq<Event<V>>, d: System<V>)
    requires Legal(c, a, e) && b == Apply(c, a, e) && Leads(c, b, es, d)
    ensures Leads(c, a, [e] + es, d)
  {
    assert ([e] + es)[1..] == es;
  }

  lemma StartRemembers<V(!new)>(c: Config)
    ensures AllRemember<V>(c, Start(c))
  {
    forall i | i in c.Honest() ensures Remembers<V>(Handling(c.n, c.t, i), FreshHub()) {
      FreshRemembers<V>(Handling(c.n, c.t, i));
    }
  }

  lemma StartIsInit<V(!new)>(c: Config, u: string)
    ensures At<V>(c, Start(c), u) == Init(c)
  {
  }

  /** From the start: every identifier sees a reachable state of its instance. */
  lemma EachReachable<V(!new)>(c: Config, es: seq<Event<V>>, s: Net<V>, u: string)
    requires c.Valid() && Goes(c, Start(c), es, s)
    ensures Reachable(c, Concerning(es, u), At(c, s, u)) && AllRemember(c, s)
  {
    StartRemembers<V>(c);
    StartIsInit<V>(c, u);
    EachIsARun(c, Start(c), es, s, u);
  }

  lemma HandedIsResult<V(!new)>(c: Config, s: Net<V>, i: int, u: string, v: V)
    requires AllRemember(c, s) && i in s.hubs && (u, v) in s.hubs[i].handed
    ensures i in At(c, s, u).nodes && v in At(c, s, u).nodes[i].results
    ensures Part(s.hubs[i].handed, u) == At(c, s, u).nodes[i].results
  {
    assert Delivered(Handling(c.n, c.t, i), s.hubs[i], u);
    InPart(s.hubs[i].handed, u, v);
  }

  lemma {:induction false} InPart<V>(handed: seq<(string, V)>, u: string, v: V)
    requires (u, v) in handed
    ensures v in Part(handed, u)
  {
    var last := handed[|handed| - 1];
    if last != (u, v) {
      assert handed == handed[..|handed| - 1] + [last];
      InPart(handed[..|handed| - 1], u, v);
    }
  }

  /** Agreement under every identifier: one value at most, the same at all honest nodes, each delivering it once. */
  lemma AgreementForEach<V(!new)>(c: Config, es: seq<Event<V>>, s: Net<V>, u: string, i: int, j: int, v: V, w: V)
    requires c.Valid() && Goes(c, Start(c), es, s) && i in c.Honest() && j in c.Honest()
    requires i in s.hubs && j in s.hubs && (u, v) in s.hubs[i].handed && (u, w) in s.hubs[j].handed
    ensures v == w && Part(s.hubs[i].handed, u) == [v]
  {
    EachReachable(c, es, s, u);
    HandedIsResult(c, s, i, u, v);
    HandedIsResult(c, s, j, u, w);
    Agreement(c, Concerning(es, u), At(c, s, u), i, j, v, w);
  }

  /** Every ECHO and READY of an honest node under `u` was handled by every honest node. */
  ghost predicate Settled<V>(c: Config, s: Net<V>, u: string) {
    forall i, m :: i in s.hubs && m in s.sent && m.uuid == u && m.kind != MSG && m.from in c.Honest() ==>
      m in s.hubs[i].log
  }

  lemma {:induction false} SeenIsLog<V>(react: React<V>, log: seq<Message<V>>, u: string, m: Message<V>)
    requires m in log && m.uuid == u
    ensures m in After(react, Of(log, u)).seen
  {
    var past, last := log[..|log| - 1], log[|log| - 1];
    assert log == past + [last];
    OfMore(past, last, u);
    if last.uuid == u {
      AfterMore(react, Of(past, u), last);
    }
    if last != m {
      SeenIsLog(react, past, u, m);
    }
  }

  /** Totality under every identifier. */
  lemma TotalityForEach<V(!new)>(c: Config, es: seq<Event<V>>, s: Net<V>, u: string, i: int, v: V, j: int)
    requires c.Valid() && Goes(c, Start(c), es, s) && Settled(c, s, u) && i in c.Honest() && j in c.Honest()
    requires i in s.hubs && (u, v) in s.hubs[i].handed
    ensures j in s.hubs && Part(s.hubs[j].handed, u) == [v]
  {
    EachReachable(c, es, s, u);
    HandedIsResult(c, s, i, u, v);
    forall k, m | k in c.Honest() && k in At(c, s, u).nodes && m in At(c, s, u).sent && m.kind != MSG
                  && m.from in c.Honest()
      ensures m in At(c, s, u).nodes[k].seen
    {
      SeenIsLog(Handling(c.n, c.t, k), s.hubs[k].log, u, m);
    }
    Totality(c, Concerning(es, u), At(c, s, u), i, v, j);
    assert Delivered(Handling(c.n, c.t, j), s.hubs[j], u);
  }
}
