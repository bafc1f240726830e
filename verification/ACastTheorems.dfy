/** What A-Cast promises, over every run. */
module ACastTheorems {
  import opened Quorums
  import opened ACast
  import opened ACastRuns

  ghost predicate Reachable<V>(c: Config, es: seq<Event<V>>, s: System<V>) {
    c.Valid() && Leads(c, Init(c), es, s)
  }

  lemma ReachableInv<V(!new)>(c: Config, es: seq<Event<V>>, s: System<V>)
    requires Reachable(c, es, s)
    ensures Inv(c, s)
  {
    InitInv<V>(c);
    RunInv(c, Init(c), es, s);
  }

  /** Two values cannot both gather a quorum of ECHOs. */
  lemma OneEchoQuorum<V(!new)>(c: Config, s: System<V>, v: V, w: V)
    requires c.Valid() && Inv(c, s)
    requires |By(s.sent, ECHO, v)| >= c.n - c.t && |By(s.sent, ECHO, w)| >= c.n - c.t
    ensures v == w
  {
    var x := HonestInBoth(c, By(s.sent, ECHO, v), By(s.sent, ECHO, w));
    assert NodeInv(c, x, s.nodes[x], s.sent);
    var m :| m in s.sent && m.kind == ECHO && m.val == v && m.from == x;
    var m' :| m' in s.sent && m'.kind == ECHO && m'.val == w && m'.from == x;
    assert m in Own(s.sent, x, ECHO) && m' in Own(s.sent, x, ECHO);
  }

  /** All READYs ever sent by honest nodes in one instance carry one value. */
  lemma ReadyAgreement<V(!new)>(c: Config, es: seq<Event<V>>, s: System<V>, m: Message<V>, m': Message<V>)
    requires Reachable(c, es, s)
    requires m in s.sent && m.kind == READY && m.from in c.Honest()
    requires m' in s.sent && m'.kind == READY && m'.from in c.Honest()
    ensures m.val == m'.val
  {
    ReachableInv(c, es, s);
    OneEchoQuorum(c, s, m.val, m'.val);
  }

  lemma DeliveryBacked<V(!new)>(c: Config, s: System<V>, i: int)
    requires c.Valid() && Inv(c, s) && i in c.Honest() && s.nodes[i].inst.delivered
    ensures |s.nodes[i].results| == 1
    ensures |By(s.sent, READY, s.nodes[i].results[0])| >= 2 * c.t + 1
    ensures |By(s.sent, ECHO, s.nodes[i].results[0])| >= c.n - c.t
  {
    assert NodeInv(c, i, s.nodes[i], s.sent);
    ReadyVouched(c, s.sent, s.sent, s.nodes[i].results[0]);
  }

  lemma OnlyOne<V>(xs: seq<V>, v: V)
    requires |xs| <= 1 && v in xs
    ensures |xs| == 1 && xs[0] == v
  {
  }

  /** Behind a delivered value there are quorums of READYs and ECHOs. */
  lemma ValueBacked<V(!new)>(c: Config, s: System<V>, i: int, v: V)
    requires c.Valid() && Inv(c, s) && i in c.Honest() && v in s.nodes[i].results
    ensures s.nodes[i].results == [v]
    ensures |By(s.sent, READY, v)| >= 2 * c.t + 1 && |By(s.sent, ECHO, v)| >= c.n - c.t
  {
    assert NodeInv(c, i, s.nodes[i], s.sent);
    OnlyOne(s.nodes[i].results, v);
    DeliveryBacked(c, s, i);
  }

  /** Agreement: no honest node delivers twice, and no two honest nodes deliver different values. */
  lemma Agreement<V(!new)>(c: Config, es: seq<Event<V>>, s: System<V>, i: int, j: int, v: V, w: V)
    requires Reachable(c, es, s) && i in c.Honest() && j in c.Honest()
    requires i in s.nodes && j in s.nodes && v in s.nodes[i].results && w in s.nodes[j].results
    ensures v == w && s.nodes[i].results == [v]
  {
    ReachableInv(c, es, s);
    ValueBacked(c, s, i, v);
    ValueBacked(c, s, j, w);
    OneEchoQuorum(c, s, v, w);
  }

  /** Integrity: a delivered value was in a MSG that some honest node received. */
  lemma Integrity<V(!new)>(c: Config, es: seq<Event<V>>, s: System<V>, i: int, v: V) returns (k: int)
    requires Reachable(c, es, s) && i in c.Honest() && i in s.nodes && v in s.nodes[i].results
    ensures k in c.Honest() && k in s.nodes && Heard(s.nodes[k], v)
  {
    ReachableInv(c, es, s);
    ValueBacked(c, s, i, v);
    k := MemberOutside(By(s.sent, ECHO, v), c.byz);
    var m :| m in s.sent && m.kind == ECHO && m.val == v && m.from == k;
    assert NodeInv(c, k, s.nodes[k], s.sent) && m in Own(s.sent, k, ECHO);
  }

  /** Nothing honest is still in flight: every ECHO and READY of an honest node was handled by every honest node. */
  ghost predicate Quiescent<V>(c: Config, s: System<V>) {
    forall i, m :: i in c.Honest() && i in s.nodes && m in s.sent && m.kind != MSG && m.from in c.Honest()
      ==> m in s.nodes[i].seen
  }

  /** The honest senders of `v` are counted by every honest node that has not delivered. */
  lemma HonestCounted<V(!new)>(c: Config, s: System<V>, i: int, k: Kind, v: V)
    requires c.Valid() && Inv(c, s) && Quiescent(c, s) && i in c.Honest() && k != MSG
    ensures By(s.sent, k, v) - c.byz <= By(s.nodes[i].seen, k, v)
    ensures |By(s.nodes[i].seen, k, v)| >= |By(s.sent, k, v)| - c.t
  {
    forall h | h in By(s.sent, k, v) - c.byz ensures h in By(s.nodes[i].seen, k, v) {
      var m :| m in s.sent && m.kind == k && m.val == v && m.from == h;
    }
    DifferenceCount(By(s.sent, k, v), c.byz);
    SubsetCount(By(s.sent, k, v) - c.byz, By(s.nodes[i].seen, k, v));
  }

  /** Once every honest node has sent READY for `v`, everyone delivers it. */
  lemma AllReadyAllDeliver<V(!new)>(c: Config, s: System<V>, v: V, j: int)
    requires c.Valid() && Inv(c, s) && Quiescent(c, s) && j in c.Honest()
    requires c.Honest() <= By(s.sent, READY, v)
    ensures s.nodes[j].inst.delivered
  {
    assert NodeInv(c, j, s.nodes[j], s.sent);
    HonestCounted(c, s, j, READY, v);
    HonestCount(c);
    SubsetCount(c.Honest(), By(s.nodes[j].seen, READY, v));
  }

  /** An honest node's READY can only be for a value with a quorum of ECHOs. */
  lemma ReadyIsFor<V(!new)>(c: Config, s: System<V>, j: int, v: V)
    requires c.Valid() && Inv(c, s) && j in c.Honest() && s.nodes[j].inst.sentReady
    requires |By(s.sent, ECHO, v)| >= c.n - c.t
    ensures j in By(s.sent, READY, v)
  {
    assert NodeInv(c, j, s.nodes[j], s.sent);
    var m :| m in Own(s.sent, j, READY);
    OneEchoQuorum(c, s, m.val, v);
  }

  lemma ReadyFromReadies<V(!new)>(c: Config, s: System<V>, k: int, v: V)
    requires c.Valid() && Inv(c, s) && Quiescent(c, s) && k in c.Honest()
    requires |By(s.sent, READY, v)| >= 2 * c.t + 1 && |By(s.sent, ECHO, v)| >= c.n - c.t
    ensures k in By(s.sent, READY, v)
  {
    assert NodeInv(c, k, s.nodes[k], s.sent);
    HonestCounted(c, s, k, READY, v);
    ReadyIsFor(c, s, k, v);
  }

  lemma ReadyFromEchoes<V(!new)>(c: Config, s: System<V>, k: int, v: V)
    requires c.Valid() && Inv(c, s) && Quiescent(c, s) && k in c.Honest()
    requires c.Honest() <= By(s.sent, ECHO, v)
    ensures k in By(s.sent, READY, v)
  {
    assert NodeInv(c, k, s.nodes[k], s.sent);
    HonestCounted(c, s, k, ECHO, v);
    HonestCount(c);
    SubsetCount(c.Honest(), By(s.nodes[k].seen, ECHO, v));
    SubsetCount(c.Honest(), By(s.sent, ECHO, v));
    ReadyIsFor(c, s, k, v);
  }

  /** The one value an honest node has delivered. */
  lemma DeliveredValue<V(!new)>(c: Config, es: seq<Event<V>>, s: System<V>, j: int) returns (v: V)
    requires Reachable(c, es, s) && j in c.Honest() && j in s.nodes && s.nodes[j].inst.delivered
    ensures s.nodes[j].results == [v]
  {
    ReachableInv(c, es, s);
    DeliveryBacked(c, s, j);
    v := s.nodes[j].results[0];
  }

  /** One delivery makes every honest node send READY for its value. */
  lemma EveryoneReadies<V(!new)>(c: Config, s: System<V>, i: int, v: V)
    requires c.Valid() && Inv(c, s) && Quiescent(c, s) && i in c.Honest() && v in s.nodes[i].results
    ensures c.Honest() <= By(s.sent, READY, v)
  {
    ValueBacked(c, s, i, v);
    forall k | k in c.Honest() ensures k in By(s.sent, READY, v) {
      ReadyFromReadies(c, s, k, v);
    }
  }

  /** Totality: once nothing honest is in flight, one honest delivery means every honest delivery, of the same value. */
  lemma Totality<V(!new)>(c: Config, es: seq<Event<V>>, s: System<V>, i: int, v: V, j: int)
    requires Reachable(c, es, s) && Quiescent(c, s) && i in c.Honest() && j in c.Honest()
    requires i in s.nodes && v in s.nodes[i].results
    ensures j in s.nodes && s.nodes[j].results == [v]
  {
    ReachableInv(c, es, s);
    EveryoneReadies(c, s, i, v);
    AllReadyAllDeliver(c, s, v, j);
    var w := DeliveredValue(c, es, s, j);
    Agreement(c, es, s, i, j, v, w);
  }

  /** `v` is the only value the origin of this instance put in a MSG. */
  ghost predicate OnlyValue<V>(s: System<V>, v: V) {
    forall m :: m in s.sent && m.kind == MSG ==> m.val == v
  }

  /** Validity: when the origin sent only `v` and every honest node handled it, every honest node delivers `v`. */
  lemma Validity<V(!new)>(c: Config, es: seq<Event<V>>, s: System<V>, v: V, j: int)
    requires Reachable(c, es, s) && Quiescent(c, s) && OnlyValue(s, v) && j in c.Honest()
    requires forall i :: i in c.Honest() && i in s.nodes ==> Heard(s.nodes[i], v)
    ensures j in s.nodes && s.nodes[j].results == [v]
  {
    var i := SomeoneHas(c, es, s, v, j);
    Totality(c, es, s, i, v, j);
  }

  lemma SomeoneHas<V(!new)>(c: Config, es: seq<Event<V>>, s: System<V>, v: V, j: int) returns (i: int)
    requires Reachable(c, es, s) && Quiescent(c, s) && OnlyValue(s, v) && j in c.Honest()
    requires forall i :: i in c.Honest() && i in s.nodes ==> Heard(s.nodes[i], v)
    ensures i in c.Honest() && i in s.nodes && v in s.nodes[i].results
  {
    ReachableInv(c, es, s);
    i := SomeoneDelivers(c, s, v, j);
    var w := DeliveredValue(c, es, s, i);
    OnlyThatValue(c, es, s, v, i, w);
  }

  lemma SomeoneDelivers<V(!new)>(c: Config, s: System<V>, v: V, j: int) returns (i: int)
    requires c.Valid() && Inv(c, s) && Quiescent(c, s) && OnlyValue(s, v) && j in c.Honest()
    requires forall i :: i in c.Honest() ==> Heard(s.nodes[i], v)
    ensures i in c.Honest() && s.nodes[i].inst.delivered
  {
    if i' :| i' in c.Honest() && s.nodes[i'].inst.delivered {
      return i';
    }
    EveryoneEchoes(c, s, v);
    forall k | k in c.Honest() ensures k in By(s.sent, READY, v) {
      ReadyFromEchoes(c, s, k, v);
    }
    AllReadyAllDeliver(c, s, v, j);
    return j;
  }

  lemma OnlyThatValue<V(!new)>(c: Config, es: seq<Event<V>>, s: System<V>, v: V, i: int, w: V)
    requires Reachable(c, es, s) && OnlyValue(s, v)
    requires i in c.Honest() && i in s.nodes && w in s.nodes[i].results
    ensures w == v
  {
    var k := Integrity(c, es, s, i, w);
    ReachableInv(c, es, s);
    assert NodeInv(c, k, s.nodes[k], s.sent);
  }

  lemma EveryoneEchoes<V(!new)>(c: Config, s: System<V>, v: V)
    requires c.Valid() && Inv(c, s) && OnlyValue(s, v)
    requires forall i :: i in c.Honest() ==> Heard(s.nodes[i], v) && !s.nodes[i].inst.delivered
    ensures c.Honest() <= By(s.sent, ECHO, v)
  {
    forall k | k in c.Honest() ensures k in By(s.sent, ECHO, v) {
      assert NodeInv(c, k, s.nodes[k], s.sent);
      var m :| m in Own(s.sent, k, ECHO);
      assert Heard(s.nodes[k], m.val);
    }
  }
}
