/** The agreement loop as a log: which events a node has taken, in which round, and what replaying them gives. */
module ABATrace {
  import opened Quorums
  import opened ABA
  import V = VoteService

  /** A node together with everything it has broadcast. */
  datatype Trace = Trace(nd: Aba, ballots: seq<V.Out>, completes: seq<int>)

  /** An event and the round the node was in when it took it. */
  datatype Logged = Logged(e: LocalEvent, at: int)

  function RoundOf(e: LocalEvent): int {
    match e
    case Start => 0
    case VoteDelivered(r, _, _) => r
    case CoinResult(r, _) => r
    case CompleteDelivered(_, _) => 0
  }

  predicate Roundly(e: LocalEvent) {
    e.VoteDelivered? || e.CoinResult?
  }

  function EntryOuts(entry: Option<Entry>): seq<V.Out> {
    if entry.None? then []
    else [V.SentInput(entry.value.round, entry.value.bit)] + V.Ballots(entry.value.round, entry.value.p)
  }

  function Maybe(v: Option<int>): seq<int> {
    if v.Some? then [v.value] else []
  }

  function EnterT(n: nat, t: nat, tr: Trace, r: nat): Trace {
    var (nd, entry) := EnterRound(n, t, tr.nd, r);
    Trace(nd, tr.ballots + EntryOuts(entry), tr.completes)
  }

  function AdvanceT(n: nat, t: nat, tr: Trace): Trace {
    var (nd, complete, entry) := Advance(n, t, tr.nd);
    Trace(nd, tr.ballots + EntryOuts(entry), tr.completes + Maybe(complete))
  }

  /** One event; a coin for a round that never existed is dropped. */
  function Apply(n: nat, t: nat, tr: Trace, e: LocalEvent): Trace {
    if e.CoinResult? && e.round < 1 then tr
    else
      var (nd, eff) := LocalStep(n, t, tr.nd, e);
      var ballots := if eff.ballots.Some? then V.Ballots(RoundOf(e), eff.ballots.value) else [];
      Trace(nd, tr.ballots + ballots + EntryOuts(eff.entry), tr.completes + Maybe(eff.complete))
  }

  function Replay(n: nat, t: nat, tr: Trace, log: seq<Logged>): Trace {
    if log == [] then tr
    else Apply(n, t, Replay(n, t, tr, log[..|log| - 1]), log[|log| - 1].e)
  }

  /** The node accepts the event: its round has begun, or it is dropped. */
  predicate Accepts(nd: Aba, e: LocalEvent) {
    Ready(nd, e) || (e.CoinResult? && e.round < 1)
  }

  /** Every event of the log is accepted by the node the events before it lead to. */
  predicate Legal(n: nat, t: nat, tr: Trace, log: seq<Logged>) {
    log == [] ||
    (Legal(n, t, tr, log[..|log| - 1]) && Accepts(Replay(n, t, tr, log[..|log| - 1]).nd, log[|log| - 1].e))
  }

  lemma {:induction false} LegalMore(n: nat, t: nat, tr: Trace, a: seq<Logged>, b: seq<Logged>)
    requires Legal(n, t, tr, a) && Legal(n, t, Replay(n, t, tr, a), b)
    ensures Legal(n, t, tr, a + b)
  {
    if b == [] {
      assert a + b == a;
    } else {
      LegalMore(n, t, tr, a, b[..|b| - 1]);
      ReplayMore(n, t, tr, a, b[..|b| - 1]);
      assert (a + b)[..|a + b| - 1] == a + b[..|b| - 1];
    }
  }

  lemma {:induction false} ReplayMore(n: nat, t: nat, tr: Trace, a: seq<Logged>, b: seq<Logged>)
    ensures Replay(n, t, tr, a + b) == Replay(n, t, Replay(n, t, tr, a), b)
  {
    if b == [] {
      assert a + b == a;
    } else {
      ReplayMore(n, t, tr, a, b[..|b| - 1]);
      assert (a + b)[..|a + b| - 1] == a + b[..|b| - 1];
    }
  }

  /** What was broadcast stays broadcast. */
  lemma {:induction false} ReplayGrows(n: nat, t: nat, tr: Trace, log: seq<Logged>)
    ensures tr.ballots <= Replay(n, t, tr, log).ballots && tr.completes <= Replay(n, t, tr, log).completes
  {
    if log != [] {
      ReplayGrows(n, t, tr, log[..|log| - 1]);
    }
  }

  lemma ReplayOne(n: nat, t: nat, tr: Trace, l: Logged, b: seq<Logged>)
    ensures Replay(n, t, tr, [l] + b) == Replay(n, t, Apply(n, t, tr, l.e), b)
  {
    ReplayMore(n, t, tr, [l], b);
    assert [l][..0] == [];
  }

  // ---------------------------------------------------------------- conservation

  function Taken(log: seq<Logged>, e: LocalEvent): nat {
    if log == [] then 0 else Taken(log[..|log| - 1], e) + (if log[|log| - 1].e == e then 1 else 0)
  }

  lemma {:induction false} TakenMore(a: seq<Logged>, b: seq<Logged>, e: LocalEvent)
    ensures Taken(a + b, e) == Taken(a, e) + Taken(b, e)
  {
    if b == [] {
      assert a + b == a;
    } else {
      TakenMore(a, b[..|b| - 1], e);
      assert (a + b)[..|a + b| - 1] == a + b[..|b| - 1];
    }
  }

  function Copies(events: seq<LocalEvent>, e: LocalEvent): nat {
    if events == [] then 0 else Copies(events[..|events| - 1], e) + (if events[|events| - 1] == e then 1 else 0)
  }

  function WaitingAt(future: map<int, seq<LocalEvent>>, r: int): seq<LocalEvent> {
    if r in future then future[r] else []
  }

  /** How often an event is accounted for: in the log, or in the buffer of its round. */
  function Held(log: seq<Logged>, future: map<int, seq<LocalEvent>>, e: LocalEvent): nat {
    Taken(log, e) + Copies(WaitingAt(future, RoundOf(e)), e)
  }

  /** The events in `events` have been added to what is held, and nothing else changed. */
  ghost predicate Gained(log: seq<Logged>, future: map<int, seq<LocalEvent>>,
                         log': seq<Logged>, future': map<int, seq<LocalEvent>>, events: seq<LocalEvent>) {
    forall e :: Held(log', future', e) == Held(log, future, e) + Copies(events, e)
  }

  lemma {:induction false} CopiesAdd(a: seq<LocalEvent>, b: seq<LocalEvent>, e: LocalEvent)
    ensures Copies(a + b, e) == Copies(a, e) + Copies(b, e)
  {
    if b == [] {
      assert a + b == a;
    } else {
      CopiesAdd(a, b[..|b| - 1], e);
      assert (a + b)[..|a + b| - 1] == a + b[..|b| - 1];
    }
  }

  lemma GainedChain(log: seq<Logged>, future: map<int, seq<LocalEvent>>, log1: seq<Logged>,
                    future1: map<int, seq<LocalEvent>>,
                    log2: seq<Logged>, future2: map<int, seq<LocalEvent>>, a: seq<LocalEvent>, b: seq<LocalEvent>)
    requires Gained(log, future, log1, future1, a) && Gained(log1, future1, log2, future2, b)
    ensures Gained(log, future, log2, future2, a + b)
  {
    forall e ensures Held(log2, future2, e) == Held(log, future, e) + Copies(a + b, e) {
      CopiesAdd(a, b, e);
      assert Held(log1, future1, e) == Held(log, future, e) + Copies(a, e);
    }
  }

  lemma GainedNothing(log: seq<Logged>, future: map<int, seq<LocalEvent>>)
    ensures Gained(log, future, log, future, [])
  {
  }

  lemma GainedOne(log: seq<Logged>, future: map<int, seq<LocalEvent>>, l: Logged)
    ensures Gained(log, future, log + [l], future, [l.e])
  {
    forall e ensures Held(log + [l], future, e) == Held(log, future, e) + Copies([l.e], e) {
      assert (log + [l])[..|log|] == log;
      assert [l.e][..0] == [];
    }
  }

  /** Taking a whole buffer and then dropping it leaves every event accounted for as often as before. */
  lemma DropBuffer(log: seq<Logged>, future: map<int, seq<LocalEvent>>, log': seq<Logged>,
                   future': map<int, seq<LocalEvent>>, r: int)
    requires r in future' && r in future && future[r] == future'[r] && AllOf(future[r], r)
    requires Gained(log, future, log', future', future[r])
    ensures Gained(log, future, log', future' - {r}, [])
  {
    forall e ensures Held(log', future' - {r}, e) == Held(log, future, e) {
      assert Held(log', future', e) == Held(log, future, e) + Copies(future[r], e);
      if RoundOf(e) != r {
        NoCopies(future[r], r, e);
      }
    }
  }

  lemma {:induction false} NoCopies(events: seq<LocalEvent>, r: int, e: LocalEvent)
    requires AllOf(events, r) && RoundOf(e) != r
    ensures Copies(events, e) == 0
  {
    if events != [] {
      NoCopies(events[..|events| - 1], r, e);
    }
  }

  /** Filing an event under its round adds it to what is held. */
  lemma FileOne(log: seq<Logged>, future: map<int, seq<LocalEvent>>, e: LocalEvent)
    ensures Gained(log, future, log, future[RoundOf(e) := WaitingAt(future, RoundOf(e)) + [e]], [e])
  {
    var r, events := RoundOf(e), WaitingAt(future, RoundOf(e));
    forall e' ensures Held(log, future[r := events + [e]], e') == Held(log, future, e') + Copies([e], e') {
      CopiesAdd(events, [e], e');
      assert [e][..0] == [];
    }
  }

  /** No event is taken before its round, or after round `now`. */
  ghost predicate OnTime(log: seq<Logged>, now: int) {
    forall a :: 0 <= a < |log| ==> RoundOf(log[a].e) <= log[a].at <= now
  }

  /** Each buffer holds vote and coin events of its own round. */
  ghost predicate Filed(future: map<int, seq<LocalEvent>>) {
    forall r :: r in future ==> AllOf(future[r], r)
  }

  ghost predicate AllOf(events: seq<LocalEvent>, r: int) {
    forall a :: 0 <= a < |events| ==> RoundOf(events[a]) == r && Roundly(events[a])
  }

  /** What is left of the buffers when the node has moved from round `c` to round `c'`. */
  ghost predicate Drained(future: map<int, seq<LocalEvent>>, future': map<int, seq<LocalEvent>>, c: int, c': int) {
    && future'.Keys <= future.Keys
    && forall r :: r in future ==> (r in future' <==> !(c < r <= c')) && (r in future' ==> future'[r] == future[r])
  }

  function Above(future: map<int, seq<LocalEvent>>, c: int): set<int> {
    set r | r in future && r > c
  }

  lemma AboveShrinks(future: map<int, seq<LocalEvent>>, future': map<int, seq<LocalEvent>>, c: int, c': int)
    requires future'.Keys <= future.Keys && c <= c'
    ensures |Above(future', c')| <= |Above(future, c)|
    ensures (exists r :: r in future && c < r <= c') ==> |Above(future', c')| < |Above(future, c)|
  {
    SubsetCount(Above(future', c'), Above(future, c));
    if r :| r in future && c < r <= c' {
      SubsetCount(Above(future', c'), Above(future, c) - {r});
    }
  }

  lemma DrainedChain(f: map<int, seq<LocalEvent>>, f1: map<int, seq<LocalEvent>>, f2: map<int, seq<LocalEvent>>,
                     c: int, c1: int, c2: int)
    requires c <= c1 <= c2 && Drained(f, f1, c, c1) && Drained(f1, f2, c1, c2)
    ensures Drained(f, f2, c, c2)
  {
  }

  /** An event taken first, then what it set off. */
  lemma TakeFirst(n: nat, t: nat, tr: Trace, first: Logged, rest: seq<Logged>)
    requires Accepts(tr.nd, first.e) && Legal(n, t, Apply(n, t, tr, first.e), rest)
    ensures Replay(n, t, Apply(n, t, tr, first.e), rest) == Replay(n, t, tr, [first] + rest)
    ensures Legal(n, t, tr, [first] + rest)
  {
    assert [first][..0] == [];
    ReplayOne(n, t, tr, first, rest);
    LegalMore(n, t, tr, [first], rest);
  }

  lemma GainFirst(first: Logged, log: seq<Logged>, f: map<int, seq<LocalEvent>>, log': seq<Logged>,
                  f': map<int, seq<LocalEvent>>)
    requires Gained(log + [first], f, log', f', [])
    ensures Gained(log, f, log', f', [first.e])
  {
    GainedOne(log, f, first);
    GainedChain(log, f, log + [first], f, log', f', [first.e], []);
    assert [first.e] + [] == [first.e];
  }

  /** One more event of a buffer. */
  lemma GainNext(log: seq<Logged>, f: map<int, seq<LocalEvent>>, log1: seq<Logged>, f1: map<int, seq<LocalEvent>>,
                 log2: seq<Logged>, f2: map<int, seq<LocalEvent>>, events: seq<LocalEvent>, a: nat)
    requires a < |events| && Gained(log, f, log1, f1, events[..a]) && Gained(log1, f1, log2, f2, [events[a]])
    ensures Gained(log, f, log2, f2, events[..a + 1])
  {
    GainedChain(log, f, log1, f1, log2, f2, events[..a], [events[a]]);
    assert events[..a + 1] == events[..a] + [events[a]];
  }

  // ----------------------------------------------------------------------- turns

  /** A node, its log and its buffers. */
  datatype Spot = Spot(tr: Trace, log: seq<Logged>, future: map<int, seq<LocalEvent>>)

  /**
   From `log` and `future` to `b` the events `taken` were logged: none early, each accepted, and replaying them from
   `start` gives `b`. The buffers of the rounds after `c` that have begun are gone, and exactly `events` came in.
   */
  ghost predicate Turned(n: nat, t: nat, log: seq<Logged>, future: map<int, seq<LocalEvent>>, start: Trace, c: int,
                         b: Spot, taken: seq<Logged>, events: seq<LocalEvent>) {
    && b.log == log + taken && OnTime(taken, b.tr.nd.round)
    && b.tr == Replay(n, t, start, taken) && Legal(n, t, start, taken)
    && b.tr.nd.round >= c && Drained(future, b.future, c, b.tr.nd.round)
    && Gained(log, future, b.log, b.future, events)
  }

  /** Nothing was logged. */
  lemma TurnEmpty(n: nat, t: nat, a: Spot, c: int, b: Spot)
    requires b.log == a.log && b.future == a.future && b.tr.nd.round >= c
    requires forall r :: r in a.future ==> !(c < r <= b.tr.nd.round)
    ensures Turned(n, t, a.log, a.future, b.tr, c, b, [], [])
  {
    assert a.log + [] == a.log;
    GainedNothing(a.log, a.future);
  }

  /** An event taken first, then what it set off. */
  lemma TurnFirst(n: nat, t: nat, a: Spot, first: Logged, b: Spot, rest: seq<Logged>)
    requires Accepts(a.tr.nd, first.e) && RoundOf(first.e) <= first.at == a.tr.nd.round
    requires Turned(n, t, a.log + [first], a.future, Apply(n, t, a.tr, first.e), a.tr.nd.round, b, rest, [])
    ensures Turned(n, t, a.log, a.future, a.tr, a.tr.nd.round, b, [first] + rest, [first.e])
  {
    TakeFirst(n, t, a.tr, first, rest);
    FirstLogged(a.log, a.future, first, b.log, b.future, rest);
    FirstOnTime(first, rest, b.tr.nd.round);
  }

  lemma FirstLogged(log: seq<Logged>, f: map<int, seq<LocalEvent>>, first: Logged, log': seq<Logged>,
                    f': map<int, seq<LocalEvent>>, rest: seq<Logged>)
    requires log' == log + [first] + rest && Gained(log + [first], f, log', f', [])
    ensures log' == log + ([first] + rest) && Gained(log, f, log', f', [first.e])
  {
    GainFirst(first, log, f, log', f');
  }

  lemma FirstOnTime(first: Logged, rest: seq<Logged>, now: int)
    requires RoundOf(first.e) <= first.at <= now && OnTime(rest, now)
    ensures OnTime([first] + rest, now)
  {
  }

  /** One more event of a buffer. */
  lemma TurnNext(n: nat, t: nat, a: Spot, c: int, mid: Spot, b: Spot, before: seq<Logged>, more: seq<Logged>,
                 events: seq<LocalEvent>, k: nat)
    requires k < |events| && Turned(n, t, a.log, a.future, a.tr, c, mid, before, events[..k])
    requires Turned(n, t, mid.log, mid.future, mid.tr, mid.tr.nd.round, b, more, [events[k]])
    ensures Turned(n, t, a.log, a.future, a.tr, c, b, before + more, events[..k + 1])
  {
    DrainedChain(a.future, mid.future, b.future, c, mid.tr.nd.round, b.tr.nd.round);
    ReplayMore(n, t, a.tr, before, more);
    LegalMore(n, t, a.tr, before, more);
    GainNext(a.log, a.future, mid.log, mid.future, b.log, b.future, events, k);
    assert a.log + before + more == a.log + (before + more);
  }

  /** A buffer that was taken whole is dropped. */
  lemma TurnDrop(n: nat, t: nat, a: Spot, start: Trace, r: int, b: Spot, taken: seq<Logged>)
    requires r in a.future && AllOf(a.future[r], r) && Turned(n, t, a.log, a.future, start, r, b, taken, a.future[r])
    ensures Turned(n, t, a.log, a.future, start, r - 1, b.(future := b.future - {r}), taken, [])
  {
    DropBuffer(a.log, a.future, b.log, b.future, r);
  }

  lemma {:induction false} TakenOnTime(log: seq<Logged>, now: int, e: LocalEvent)
    requires OnTime(log, now) && RoundOf(e) > now
    ensures Taken(log, e) == 0
  {
    if log != [] {
      TakenOnTime(log[..|log| - 1], now, e);
    }
  }

  ghost predicate Settled(future: map<int, seq<LocalEvent>>, now: int) {
    forall r :: r in future ==> r > now
  }

  /** Between messages every event that came in was taken once if its round has begun, and waits otherwise. */
  lemma NothingLost(log: seq<Logged>, future: map<int, seq<LocalEvent>>, received: seq<LocalEvent>, now: int,
                    e: LocalEvent)
    requires Gained([], map[], log, future, received) && Settled(future, now) && OnTime(log, now)
    ensures RoundOf(e) <= now ==> Taken(log, e) == Copies(received, e)
    ensures RoundOf(e) > now ==> Taken(log, e) == 0 && Copies(WaitingAt(future, RoundOf(e)), e) == Copies(received, e)
  {
    assert Held(log, future, e) == Held([], map[], e) + Copies(received, e);
    if RoundOf(e) > now {
      TakenOnTime(log, now, e);
    }
  }
}
