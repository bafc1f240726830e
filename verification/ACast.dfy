/** Bracha's reliable broadcast (A-Cast): one node's reaction to one message. */
module ACast {
  import opened Quorums

  datatype Kind = MSG | ECHO | READY

  /** `from` is the immediate sender; `uuid` names the broadcast instance. */
  datatype Message<V> = Message(kind: Kind, uuid: string, val: V, from: int)

  datatype Instance<V> = Instance(
    receivedEcho: map<V, set<int>>,
    receivedReady: map<V, set<int>>,
    sentEcho: bool,
    sentReady: bool,
    delivered: bool)

  function Fresh<V>(): Instance<V> {
    Instance(map[], map[], false, false, false)
  }

  function Senders<V(==)>(m: map<V, set<int>>, v: V): set<int> {
    if v in m then m[v] else {}
  }

  function AddToSet<V(==)>(m: map<V, set<int>>, v: V, from: int): map<V, set<int>> {
    m[v := Senders(m, v) + {from}]
  }

  /** The state after one message, what was broadcast and what was handed to the caller. */
  datatype Reaction<V> = Reaction(inst: Instance<V>, sent: Option<Message<V>>, output: Option<V>)

  function Handle<V(==)>(n: nat, t: nat, id: int, inst: Instance<V>, m: Message<V>): Reaction<V> {
    if inst.delivered then
      Reaction(inst, None, None)
    else
      match m.kind
      case MSG =>
        if inst.sentEcho then Reaction(inst, None, None)
        else Reaction(inst.(sentEcho := true), Some(Message(ECHO, m.uuid, m.val, id)), None)
      case ECHO =>
        var echo := AddToSet(inst.receivedEcho, m.val, m.from);
        var next := inst.(receivedEcho := echo);
        if |echo[m.val]| >= n - t && !inst.sentReady
        then Reaction(next.(sentReady := true), Some(Message(READY, m.uuid, m.val, id)), None)
        else Reaction(next, None, None)
      case READY =>
        var ready := AddToSet(inst.receivedReady, m.val, m.from);
        var fire := |ready[m.val]| >= t + 1 && !inst.sentReady;
        var sent := if fire then Some(Message(READY, m.uuid, m.val, id)) else None;
        var next := inst.(receivedReady := ready, sentReady := inst.sentReady || fire);
        if |ready[m.val]| >= 2 * t + 1
        then Reaction(next.(delivered := true, receivedEcho := map[], receivedReady := map[]), sent, Some(m.val))
        else Reaction(next, sent, None)
  }

  function AsList<T>(o: Option<T>): seq<T> {
    if o.Some? then [o.value] else []
  }

  function InstanceOf<V>(instances: map<string, Instance<V>>, uuid: string): Instance<V> {
    if uuid in instances then instances[uuid] else Fresh()
  }
}
