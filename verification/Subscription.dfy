/**
 * Agreement between the wallet's watched scripts and what the server tracks, across reconnections and with
 * `watch` calls in flight. Commands reach a control task only while its connection is open, in order.
 */
module Subscription {
  import opened Types
  import opened Control

  /** `handled`: the wallet has processed the `Connected` event of this connection. */
  datatype Connection = Connection(active: set<Script>, queue: seq<Command>, sent: seq<Message>, handled: bool)

  /** `pending`: the scripts of each `watch` that has sent its subscription and not yet inserted them. */
  datatype World = World(addresses: set<Script>, connection: Option<Connection>, pending: map<nat, seq<Script>>)

  datatype Action =
    | Open
    | Drop
    | HandleConnected(keys: seq<Script>)
    | WatchSend(id: nat, spks: seq<Script>)
    | WatchInsert(id: nat)
    | Unwatch(spks: seq<Script>)
    | Enqueue(c: Command)
    | ControlTurn

  function Send(c: Option<Connection>, command: Command): Option<Connection> {
    if c.None? then None else Some(c.value.(queue := c.value.queue + [command]))
  }

  predicate Enabled(w: World, a: Action) {
    match a
    case Open => w.connection.None?
    case Drop => w.connection.Some?
    case HandleConnected(keys) => w.connection.Some? && !w.connection.value.handled && Members(keys) == w.addresses
    case WatchSend(id, _) => id !in w.pending
    case WatchInsert(id) => id in w.pending
    case Unwatch(_) => true
    case Enqueue(c) => c.Ping? || c.Close?
    case ControlTurn => w.connection.Some? && w.connection.value.queue != []
  }

  /** One command handled by the control task, as `Control.Manager.Handle` does when the socket accepts its message. */
  function Handled(c: Connection): Connection
    requires c.queue != []
  {
    Connection(After(c.active, c.queue[0]), c.queue[1..], c.sent + Reply(c.active, c.queue[0]), c.handled)
  }

  function Next(w: World, a: Action): World
    requires Enabled(w, a)
  {
    match a
    case Open => w.(connection := Some(Connection({}, [], [], false)))
    case Drop => w.(connection := None)
    case HandleConnected(keys) =>
      var c := Send(w.connection, Subscribe(keys));
      w.(connection := Some(c.value.(handled := true)))
    case WatchSend(id, spks) =>
      w.(connection := Send(w.connection, Subscribe(spks)), pending := w.pending[id := spks])
    case WatchInsert(id) =>
      w.(addresses := w.addresses + Members(w.pending[id]), pending := w.pending - {id})
    case Unwatch(spks) =>
      w.(addresses := w.addresses - Members(spks), connection := Send(w.connection, Unsubscribe(spks)))
    case Enqueue(c) => w.(connection := Send(w.connection, c))
    case ControlTurn => w.(connection := Some(Handled(w.connection.value)))
  }

  /** What the server will track once the queued commands have been handled. */
  function Future(c: Connection): set<Script> {
    AfterAll(c.active, c.queue)
  }

  ghost function InFlight(w: World): set<Script> {
    set id, spk | id in w.pending && spk in w.pending[id] :: spk
  }

  /** What the present connection has been asked to track, from the actions alone. */
  function Asked(asked: set<Script>, a: Action): set<Script> {
    match a
    case Open => {}
    case HandleConnected(keys) => asked + Members(keys)
    case WatchSend(_, spks) => asked + Members(spks)
    case Unwatch(spks) => asked - Members(spks)
    case _ => asked
  }

  function AskedAll(asked: set<Script>, actions: seq<Action>): set<Script>
    decreases |actions|
  {
    if actions == [] then asked else AskedAll(Asked(asked, actions[0]), actions[1..])
  }

  /** The server is about to track what it was asked to, and that is never more than is watched or about to be. */
  ghost predicate Inv(w: World, asked: set<Script>) {
    w.connection.Some? ==>
      var c := w.connection.value;
      OnlyChanges(c.sent) && Tracked(c.sent) == c.active && Future(c) == asked && asked <= w.addresses + InFlight(w)
  }

  lemma SendFuture(c: Connection, command: Command)
    ensures Future(Send(Some(c), command).value) == After(Future(c), command)
  {
    assert (c.queue + [command])[..|c.queue|] == c.queue;
  }

  lemma HandledFuture(c: Connection)
    requires c.queue != []
    ensures Future(Handled(c)) == Future(c)
  {
    assert c.queue == [c.queue[0]] + c.queue[1..];
    AfterAllFirst(c.active, c.queue[0], c.queue[1..]);
  }

  /** Only an insertion takes scripts out of flight, and it puts them among the watched ones. */
  lemma InFlightKept(w: World, a: Action, spk: Script)
    requires Enabled(w, a) && spk in InFlight(w)
    ensures spk in InFlight(Next(w, a)) || (a.WatchInsert? && spk in Next(w, a).addresses)
  {
    var t := Next(w, a);
    var id :| id in w.pending && spk in w.pending[id];
    if !(a.WatchInsert? && a.id == id) {
      assert id in t.pending && spk in t.pending[id];
    }
  }

  lemma StepKeepsInv(w: World, a: Action, asked: set<Script>)
    requires Inv(w, asked) && Enabled(w, a)
    ensures Inv(Next(w, a), Asked(asked, a))
  {
    var t := Next(w, a);
    forall spk | spk in InFlight(w) ensures spk in InFlight(t) + t.addresses || a.Unwatch? {
      InFlightKept(w, a, spk);
    }
    match a {
      case Open => assert AfterAll({}, []) == {};
      case Drop =>
      case HandleConnected(keys) => SendFuture(w.connection.value, Subscribe(keys));
      case WatchSend(id, spks) =>
        assert t.pending[id] == spks;
        if w.connection.Some? { SendFuture(w.connection.value, Subscribe(spks)); }
      case WatchInsert(id) =>
      case Unwatch(spks) =>
        assert InFlight(t) == InFlight(w);
        if w.connection.Some? { SendFuture(w.connection.value, Unsubscribe(spks)); }
      case Enqueue(c) => if w.connection.Some? { SendFuture(w.connection.value, c); }
      case ControlTurn =>
        HandledFuture(w.connection.value);
        ReplyKeeps(w.connection.value.active, w.connection.value.sent, w.connection.value.queue[0]);
    }
  }

  ghost predicate Run(w: World, actions: seq<Action>)
    decreases |actions|
  {
    actions != [] ==> Enabled(w, actions[0]) && Run(Next(w, actions[0]), actions[1..])
  }

  ghost function Final(w: World, actions: seq<Action>): World
    requires Run(w, actions)
    decreases |actions|
  {
    if actions == [] then w else Final(Next(w, actions[0]), actions[1..])
  }

  lemma {:induction false} RunKeepsInv(w: World, actions: seq<Action>, asked: set<Script>)
    requires Inv(w, asked) && Run(w, actions)
    ensures Inv(Final(w, actions), AskedAll(asked, actions))
    decreases |actions|
  {
    if actions != [] {
      StepKeepsInv(w, actions[0], asked);
      RunKeepsInv(Next(w, actions[0]), actions[1..], Asked(asked, actions[0]));
    }
  }

  const START := World({}, None, map[])

  /** Nothing is under way: no command is queued and no `watch` is between its send and its insertion. */
  predicate Quiet(w: World) {
    w.connection.Some? && w.connection.value.queue == [] && w.pending == map[]
  }

  /** What the server tracks agrees with the watched scripts. */
  predicate Agrees(w: World)
    requires w.connection.Some?
  {
    Tracked(w.connection.value.sent) == w.addresses
  }

  /**
   * Over every run, with any number of reconnections and any interleaving: every tracking message changes what the
   * server tracks; when nothing is under way the server tracks a subset of the watched scripts, and all of them
   * exactly when the present connection has been asked for all of them.
   */
  lemma SubscriptionAgreement(actions: seq<Action>)
    requires Run(START, actions)
    ensures var w := Final(START, actions);
            && (w.connection.Some? ==> OnlyChanges(w.connection.value.sent))
            && (Quiet(w) ==>
                  && Tracked(w.connection.value.sent) <= w.addresses
                  && (Agrees(w) <==> w.addresses <= AskedAll({}, actions)))
  {
    RunKeepsInv(START, actions, {});
    var w := Final(START, actions);
    if Quiet(w) {
      assert InFlight(w) == {};
      assert AfterAll(w.connection.value.active, []) == w.connection.value.active;
    }
  }

  /** The insertions that cannot spoil agreement: before `Connected` is handled, or of scripts still asked for. */
  predicate SafeInsert(w: World, id: nat, asked: set<Script>)
    requires id in w.pending
  {
    w.connection.None? || !w.connection.value.handled || Members(w.pending[id]) <= asked
  }

  ghost predicate SafeRun(w: World, actions: seq<Action>, asked: set<Script>)
    decreases |actions|
  {
    actions != [] ==>
      && Enabled(w, actions[0])
      && (actions[0].WatchInsert? ==> SafeInsert(w, actions[0].id, asked))
      && SafeRun(Next(w, actions[0]), actions[1..], Asked(asked, actions[0]))
  }

  ghost predicate AllAsked(w: World, asked: set<Script>) {
    w.connection.Some? && w.connection.value.handled ==> w.addresses <= asked
  }

  lemma {:induction false} SafeRunKeeps(w: World, actions: seq<Action>, asked: set<Script>)
    requires AllAsked(w, asked) && SafeRun(w, actions, asked)
    ensures Run(w, actions) && AllAsked(Final(w, actions), AskedAll(asked, actions))
    decreases |actions|
  {
    if actions != [] {
      assert AllAsked(Next(w, actions[0]), Asked(asked, actions[0]));
      SafeRunKeeps(Next(w, actions[0]), actions[1..], Asked(asked, actions[0]));
    }
  }

  /** If every insertion is safe, a quiet state in which `Connected` has been handled is one of agreement. */
  lemma SafeRunsAgree(actions: seq<Action>)
    requires SafeRun(START, actions, {})
    ensures Run(START, actions)
    ensures var w := Final(START, actions); Quiet(w) && w.connection.value.handled ==> Agrees(w)
  {
    SafeRunKeeps(START, actions, {});
    SubscriptionAgreement(actions);
  }

  ghost predicate Reaches(w: World, actions: seq<Action>, t: World) {
    Run(w, actions) && Final(w, actions) == t
  }

  function Turns(n: nat): seq<Action> {
    seq(n, _ => ControlTurn)
  }

  lemma EmptyQueue(w: World, asked: set<Script>)
    requires Inv(w, asked) && w.connection.Some? && w.connection.value.queue == []
    ensures Reaches(w, Turns(0), w) && Tracked(w.connection.value.sent) == asked
  {
  }

  /** The control task can always work off its queue, and then the server tracks what it was asked to. */
  lemma {:induction false} QueueDrains(w: World, asked: set<Script>) returns (t: World)
    requires Inv(w, asked) && w.connection.Some?
    ensures Reaches(w, Turns(|w.connection.value.queue|), t)
    ensures t.connection.Some? && t.connection.value.queue == [] && Tracked(t.connection.value.sent) == asked
    ensures t.addresses == w.addresses && t.pending == w.pending && t.connection.value.handled == w.connection.value.handled
    decreases |w.connection.value.queue|
  {
    hide Inv, Tracked, OnlyChanges, Run, Final, After, Reply, InFlight;
    var c := w.connection.value;
    var n := |c.queue|;
    if n == 0 {
      t := w;
      EmptyQueue(w, asked);
    } else {
      StepKeepsInv(w, ControlTurn, asked);
      t := QueueDrains(Next(w, ControlTurn), asked);
      assert Turns(n) == [ControlTurn] + Turns(n - 1);
      ReachNext(w, ControlTurn, Turns(n - 1), t);
    }
  }

  /**
   * The last `watch` in flight inserts its scripts while the server is about to track all others: once the control
   * task has worked off its queue there is agreement exactly when, at the insertion, the server was still going to
   * track the scripts inserted.
   */
  lemma InsertKeepsAgreementIff(w: World, id: nat, asked: set<Script>) returns (t: World)
    requires Inv(w, asked) && w.connection.Some? && w.pending.Keys == {id} && w.addresses <= Future(w.connection.value)
    ensures Reaches(w, [WatchInsert(id)] + Turns(|w.connection.value.queue|), t) && Quiet(t)
    ensures Agrees(t) <==> Members(w.pending[id]) <= Future(w.connection.value)
  {
    StepKeepsInv(w, WatchInsert(id), asked);
    var w1 := Next(w, WatchInsert(id));
    t := QueueDrains(w1, asked);
    assert InFlight(w1) == {};
    ReachNext(w, WatchInsert(id), Turns(|w.connection.value.queue|), t);
  }

  lemma StartInv()
    ensures Inv(START, {})
  {
  }

  lemma ReachNext(w: World, a: Action, actions: seq<Action>, t: World)
    requires Enabled(w, a) && Reaches(Next(w, a), actions, t)
    ensures Reaches(w, [a] + actions, t)
  {
    assert ([a] + actions)[1..] == actions;
  }

  ghost predicate Disagreement(t: World) {
    Quiet(t) && t.connection.value.handled && !Agrees(t)
  }

  /** An `unwatch` of a script whose `watch` is in flight: the script ends up watched but not tracked. */
  lemma ConcurrentUnwatchDisagrees()
    ensures exists t :: Disagreement(t) &&
              Reaches(START, [Open, HandleConnected([]), WatchSend(0, ["x"]), Unwatch(["x"]), WatchInsert(0)]
                             + [ControlTurn, ControlTurn, ControlTurn], t)
  {
    hide Run, Final, Inv, Tracked, OnlyChanges;
    StartInv();
    assert Members([]) == {} && "x" in ["x"] && Members(["x"]) == {"x"};
    var w1 := Next(START, Open);
    var w2 := Next(w1, HandleConnected([]));
    var w3 := Next(w2, WatchSend(0, ["x"]));
    var w4 := Next(w3, Unwatch(["x"]));
    var w5 := Next(w4, WatchInsert(0));
    assert w5.pending == map[] && w5.addresses == {"x"};
    assert w5.connection.value.queue == [Subscribe([]), Subscribe(["x"]), Unsubscribe(["x"])];
    StepKeepsInv(START, Open, {});
    StepKeepsInv(w1, HandleConnected([]), {});
    StepKeepsInv(w2, WatchSend(0, ["x"]), {});
    StepKeepsInv(w3, Unwatch(["x"]), {"x"});
    StepKeepsInv(w4, WatchInsert(0), {});
    var t := QueueDrains(w5, {});
    var a5 := [ControlTurn, ControlTurn, ControlTurn];
    assert Turns(3) == a5;
    ReachNext(w4, WatchInsert(0), a5, t);
    var a4 := [WatchInsert(0)] + a5;
    ReachNext(w3, Unwatch(["x"]), a4, t);
    var a3 := [Unwatch(["x"])] + a4;
    ReachNext(w2, WatchSend(0, ["x"]), a3, t);
    var a2 := [WatchSend(0, ["x"])] + a3;
    ReachNext(w1, HandleConnected([]), a2, t);
    var a1 := [HandleConnected([])] + a2;
    ReachNext(START, Open, a1, t);
    assert [Open] + a1 == [Open, HandleConnected([]), WatchSend(0, ["x"]), Unwatch(["x"]), WatchInsert(0)] + a5;
  }

  /** A `watch` that sends while offline and inserts after the next `Connected` was handled: watched but not tracked. */
  lemma WatchAcrossReconnectDisagrees()
    ensures exists t :: Disagreement(t) &&
              Reaches(START, [WatchSend(0, ["x"]), Open, HandleConnected([]), WatchInsert(0), ControlTurn], t)
  {
    hide Run, Final, Inv, Tracked, OnlyChanges;
    StartInv();
    assert Members([]) == {} && "x" in ["x"] && Members(["x"]) == {"x"};
    var w1 := Next(START, WatchSend(0, ["x"]));
    var w2 := Next(w1, Open);
    var w3 := Next(w2, HandleConnected([]));
    var w4 := Next(w3, WatchInsert(0));
    assert w4.addresses == {"x"} && w4.pending == map[] && w4.connection.value.queue == [Subscribe([])];
    StepKeepsInv(START, WatchSend(0, ["x"]), {});
    StepKeepsInv(w1, Open, {"x"});
    StepKeepsInv(w2, HandleConnected([]), {});
    StepKeepsInv(w3, WatchInsert(0), {});
    var t := QueueDrains(w4, {});
    assert Turns(1) == [ControlTurn];
    ReachNext(w3, WatchInsert(0), [ControlTurn], t);
    var a3 := [WatchInsert(0)] + [ControlTurn];
    ReachNext(w2, HandleConnected([]), a3, t);
    var a2 := [HandleConnected([])] + a3;
    ReachNext(w1, Open, a2, t);
    var a1 := [Open] + a2;
    ReachNext(START, WatchSend(0, ["x"]), a1, t);
    assert [WatchSend(0, ["x"])] + a1 == [WatchSend(0, ["x"]), Open, HandleConnected([]), WatchInsert(0), ControlTurn];
  }
}
