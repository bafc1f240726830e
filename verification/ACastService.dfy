/** The A-Cast service of one node: a table of instances, one message at a time. */
module ACastService {
  import opened Quorums
  import opened ACast
  import opened ACastMany

  /** The per-node service: `outbox` collects what `Broadcast` was given, `results` what `SendResult` was given. */
  class AcastService<V(==)> {
    const id: int
    const n: nat
    const t: nat
    var instances: map<string, Instance<V>>
    var outbox: seq<Message<V>>
    var results: seq<V>
    ghost var handed: seq<(string, V)>
    ghost var log: seq<Message<V>>

    constructor (id: int, n: nat, t: nat)
      ensures this.id == id && this.n == n && this.t == t
      ensures Sound() && instances == map[] && outbox == [] && results == [] && log == []
    {
      this.id, this.n, this.t := id, n, t;
      instances, outbox, results := map[], [], [];
      handed, log := [], [];
      new;
      FreshRemembers<V>(Handling(n, t, id));
    }

    ghost function Here(): Hub<V>
      reads this
    {
      Hub(instances, outbox, handed, log)
    }

    /**
     Each instance is what the logged messages of its identifier made of it, in their order; broadcasts and results
     are exactly those of the instances.
     */
    ghost predicate Sound()
      reads this
    {
      Remembers(Handling(n, t, id), Here()) && results == Values(handed)
    }

    /** The instance of an identifier stays what it was, and is fresh the first time. */
    method GetInstance(uuid: string) returns (inst: Instance<V>)
      modifies this`instances
      ensures inst == if uuid in old(instances) then old(instances)[uuid] else Fresh()
      ensures instances == old(instances)[uuid := inst]
    {
      if uuid !in instances {
        instances := instances[uuid := Fresh()];
      }
      inst := instances[uuid];
    }

    method OnMsg(inst: Instance<V>, msg: Message<V>) returns (inst': Instance<V>)
      requires !inst.delivered && msg.kind == MSG
      modifies this`outbox
      ensures var r := Handle(n, t, id, inst, msg);
              inst' == r.inst && outbox == old(outbox) + AsList(r.sent) && r.output == None
      ensures inst' == inst.(sentEcho := true)
      ensures outbox == old(outbox) + (if inst.sentEcho then [] else [Message(ECHO, msg.uuid, msg.val, id)])
    {
      inst' := inst;
      if !inst.sentEcho {
        inst' := inst'.(sentEcho := true);
        outbox := outbox + [Message(ECHO, msg.uuid, msg.val, id)];
      }
    }

    method OnEcho(inst: Instance<V>, msg: Message<V>) returns (inst': Instance<V>)
      requires !inst.delivered && msg.kind == ECHO
      modifies this`outbox
      ensures var r := Handle(n, t, id, inst, msg);
              inst' == r.inst && outbox == old(outbox) + AsList(r.sent) && r.output == None
      ensures var echo := (if msg.val in inst.receivedEcho then inst.receivedEcho[msg.val] else {}) + {msg.from};
              var due := |echo| >= n - t && !inst.sentReady;
              && inst' == inst.(receivedEcho := inst.receivedEcho[msg.val := echo], sentReady := inst.sentReady || due)
              && outbox == old(outbox) + (if due then [Message(READY, msg.uuid, msg.val, id)] else [])
    {
      inst' := inst.(receivedEcho := AddToSet(inst.receivedEcho, msg.val, msg.from));
      var count := |inst'.receivedEcho[msg.val]|;
      if count >= n - t && !inst'.sentReady {
        inst' := inst'.(sentReady := true);
        outbox := outbox + [Message(READY, msg.uuid, msg.val, id)];
      }
    }

    method OnReady(inst: Instance<V>, msg: Message<V>) returns (inst': Instance<V>)
      requires !inst.delivered && msg.kind == READY
      modifies this`outbox, this`results
      ensures var r := Handle(n, t, id, inst, msg);
              && inst' == r.inst
              && outbox == old(outbox) + AsList(r.sent)
              && results == old(results) + AsList(r.output)
      ensures var ready := (if msg.val in inst.receivedReady then inst.receivedReady[msg.val] else {}) + {msg.from};
              var due := |ready| >= t + 1 && !inst.sentReady;
              && outbox == old(outbox) + (if due then [Message(READY, msg.uuid, msg.val, id)] else [])
              && results == old(results) + (if |ready| >= 2 * t + 1 then [msg.val] else [])
              && inst' == if |ready| >= 2 * t + 1
                          then Instance(map[], map[], inst.sentEcho, inst.sentReady || due, true)
                          else inst.(receivedReady := inst.receivedReady[msg.val := ready],
                                     sentReady := inst.sentReady || due)
    {
      inst' := inst.(receivedReady := AddToSet(inst.receivedReady, msg.val, msg.from));
      var count := |inst'.receivedReady[msg.val]|;
      if count >= t + 1 && !inst'.sentReady {
        inst' := inst'.(sentReady := true);
        outbox := outbox + [Message(READY, msg.uuid, msg.val, id)];
      }
      if count >= 2 * t + 1 {
        inst' := inst'.(delivered := true, receivedEcho := map[], receivedReady := map[]);
        results := results + [msg.val];
      }
    }

    method React(inst: Instance<V>, msg: Message<V>) returns (inst': Instance<V>)
      requires !inst.delivered
      modifies this`outbox, this`results
      ensures var r := Handle(n, t, id, inst, msg);
              && inst' == r.inst && outbox == old(outbox) + AsList(r.sent) && results == old(results) + AsList(r.output)
    {
      match msg.kind {
        case MSG => inst' := OnMsg(inst, msg);
        case ECHO => inst' := OnEcho(inst, msg);
        case READY => inst' := OnReady(inst, msg);
      }
    }

    /** The message goes to its own instance; a delivered instance ignores it. */
    method Act(msg: Message<V>)
      modifies this`instances, this`outbox, this`results
      ensures var r := Handle(n, t, id, if msg.uuid in old(instances) then old(instances)[msg.uuid] else Fresh(), msg);
              && instances == old(instances)[msg.uuid := r.inst]
              && outbox == old(outbox) + AsList(r.sent) && results == old(results) + AsList(r.output)
      ensures msg.uuid in old(instances) && old(instances)[msg.uuid].delivered ==>
        instances == old(instances) && outbox == old(outbox) && results == old(results)
    {
      var inst := GetInstance(msg.uuid);
      if inst.delivered {
        return;
      }
      inst := React(inst, msg);
      instances := instances[msg.uuid := inst];
    }

    method OnMessage(msg: Message<V>)
      requires Sound()
      modifies this
      ensures Sound() && log == old(log) + [msg] && Here() == Serve(n, t, id, old(Here()), msg)
      ensures msg.uuid in old(instances) && old(instances)[msg.uuid].delivered ==>
        instances == old(instances) && outbox == old(outbox) && results == old(results)
    {
      ghost var h, r := Here(), Handle(n, t, id, InstanceOf(instances, msg.uuid), msg);
      Act(msg);
      handed, log := handed + Named(msg.uuid, r.output), log + [msg];
      ServeRemembers(n, t, id, h, msg);
      ValuesMore(h.handed, msg.uuid, r.output);
    }
  }

  ghost function Values<V>(handed: seq<(string, V)>): seq<V> {
    seq(|handed|, a requires 0 <= a < |handed| => handed[a].1)
  }

  lemma ValuesMore<V>(handed: seq<(string, V)>, u: string, v: Option<V>)
    ensures Values(handed + Named(u, v)) == Values(handed) + AsList(v)
  {
  }
}
