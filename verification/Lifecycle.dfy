/**
 * The tasks of the websocket connections around the main loop: per connection a control, a message and a ping
 * task, a broadcast disconnect signal, and a one-shot close signal held by the control task. Every step is one
 * atomic action of one task; any interleaving is allowed.
 */
module Lifecycle {
  import opened Types
  import opened Connection

  /** `unseen`: disconnect signals sent since the task subscribed that it has not received. */
  datatype Task = Unstarted | Running(unseen: nat) | Ended

  datatype CloseState = Held | Sent | Dropped

  datatype Conn = Conn(control: Task, message: Task, ping: Task, close: CloseState)

  datatype Who = ControlTask | MessageTask | PingTask

  /** `sub`: the main loop's own subscription to the disconnect signal of the last connection. */
  datatype World = World(main: Main, conns: seq<Conn>, sub: Option<nat>)

  datatype Action =
    | MainTurn(connectOk: bool)
    | MainSubscribe
    | MainWake(wake: Wake)
    | StartTask(i: nat, who: Who)
    | SeeSignal(i: nat, who: Who)
    | PingLags(i: nat)
    | CloseRequest(i: nat)
    | Raise(i: nat, who: Who)

  function TaskOf(c: Conn, who: Who): Task {
    match who
    case ControlTask => c.control
    case MessageTask => c.message
    case PingTask => c.ping
  }

  /** Sets one task; a control task that ends drops the close sender it may still hold. */
  function SetTask(c: Conn, who: Who, t: Task): Conn {
    match who
    case ControlTask => c.(control := t, close := if t.Ended? && c.close.Held? then Dropped else c.close)
    case MessageTask => c.(message := t)
    case PingTask => c.(ping := t)
  }

  function Notified(t: Task): Task {
    if t.Running? then Running(t.unseen + 1) else t
  }

  /** A disconnect signal reaches the tasks that have subscribed, the sender included. */
  function Broadcast(c: Conn): Conn {
    Conn(Notified(c.control), Notified(c.message), Notified(c.ping), c.close)
  }

  predicate AllEnded(c: Conn) {
    c.control.Ended? && c.message.Ended? && c.ping.Ended?
  }

  predicate AllStarted(c: Conn) {
    !c.control.Unstarted? && !c.message.Unstarted? && !c.ping.Unstarted?
  }

  function Last(w: World): Conn
    requires w.conns != []
  {
    w.conns[|w.conns| - 1]
  }

  predicate Enabled(w: World, a: Action) {
    match a
    case MainTurn(_) =>
      && !w.main.exited && !w.main.status.Connected?
      // `Disconnected` and `Offline` first join the tasks whose handles are held
      && ((w.main.status.Disconnected? || w.main.status.Offline?) && w.main.handles ==> w.conns != [] && AllEnded(Last(w)))
    case MainSubscribe => w.main.status.Connected? && w.sub.None?
    case MainWake(wake) =>
      && w.main.status.Connected? && w.sub.Some? && w.conns != []
      && (match wake
          case Signalled => w.sub.value > 0
          case CloseRequested => Last(w).close.Sent?
          case CloseDropped => Last(w).close.Dropped?)
    case StartTask(i, who) => i < |w.conns| && TaskOf(w.conns[i], who).Unstarted?
    case SeeSignal(i, who) =>
      // the ping task polls: a receiver that has fallen behind first reports that instead of the signal
      i < |w.conns| && SignalPending(TaskOf(w.conns[i], who)) && (who.PingTask? ==> w.conns[i].ping.unseen == 1)
    case PingLags(i) => i < |w.conns| && w.conns[i].ping.Running? && w.conns[i].ping.unseen > 1
    case CloseRequest(i) => i < |w.conns| && w.conns[i].control.Running? && w.conns[i].close.Held?
    case Raise(i, who) => i < |w.conns| && TaskOf(w.conns[i], who).Running?
  }

  function SubNotified(w: World, i: nat): Option<nat> {
    if w.sub.Some? && i + 1 == |w.conns| then Some(w.sub.value + 1) else w.sub
  }

  function Next(w: World, a: Action): World
    requires Enabled(w, a)
  {
    match a
    case MainTurn(connectOk) =>
      var main := Turn(w.main, Input(connectOk, Signalled, true));
      w.(main := main,
         conns := if w.main.status.Connecting? && main.status.Connected?
                  then w.conns + [Conn(Unstarted, Unstarted, Unstarted, Held)] else w.conns)
    case MainSubscribe => w.(sub := Some(0))
    case MainWake(wake) =>
      var main := Turn(w.main, Input(true, wake, true));
      // a close wakes the main loop, which then tells the tasks to exit
      World(main, if wake.Signalled? then w.conns else w.conns[|w.conns| - 1 := Broadcast(Last(w))], None)
    case StartTask(i, who) => w.(conns := w.conns[i := SetTask(w.conns[i], who, Running(0))])
    case SeeSignal(i, who) => w.(conns := w.conns[i := SetTask(w.conns[i], who, Ended)])
    case PingLags(i) => w.(conns := w.conns[i := w.conns[i].(ping := Running(1))])
    case CloseRequest(i) => w.(conns := w.conns[i := w.conns[i].(close := Sent)])
    case Raise(i, who) =>
      var c := Broadcast(w.conns[i]);
      // the message task goes on after an error; the other two leave their loops
      w.(conns := w.conns[i := if who.MessageTask? then c else SetTask(c, who, Ended)], sub := SubNotified(w, i))
  }

  /** The assumption on schedules: a connection's tasks have all subscribed before its first disconnect signal. */
  predicate Orderly(w: World, a: Action)
    requires Enabled(w, a)
  {
    match a
    case Raise(i, _) => AllStarted(w.conns[i])
    case MainWake(_) => AllStarted(Last(w))
    case _ => true
  }

  predicate SignalPending(t: Task) {
    t.Running? && t.unseen > 0
  }

  predicate EndedOrPending(t: Task) {
    t.Ended? || SignalPending(t)
  }

  ghost predicate Run(w: World, actions: seq<Action>, orderly: bool)
    decreases |actions|
  {
    actions != [] ==>
      && Enabled(w, actions[0])
      && (orderly ==> Orderly(w, actions[0]))
      && Run(Next(w, actions[0]), actions[1..], orderly)
  }

  ghost function Final(w: World, actions: seq<Action>, orderly: bool): World
    requires Run(w, actions, orderly)
    decreases |actions|
  {
    if actions == [] then w else Final(Next(w, actions[0]), actions[1..], orderly)
  }

  const BEGIN := World(START, [], None)

  /**
   * Who was listening when a disconnect signal of the last connection was sent: the tasks that were running then,
   * and whether the main loop had subscribed.
   */
  datatype Ledger = Ledger(tasks: set<Who>, main: bool)

  const NOBODY := Ledger({}, false)

  function RunningTasks(c: Conn): set<Who> {
    set who: Who | TaskOf(c, who).Running?
  }

  function Recorded(l: Ledger, w: World, a: Action): Ledger
    requires Enabled(w, a)
  {
    match a
    case MainTurn(connectOk) => if w.main.status.Connecting? && connectOk then NOBODY else l
    case MainWake(wake) => if wake.Signalled? then l else l.(tasks := l.tasks + RunningTasks(Last(w)))
    case Raise(i, _) =>
      if i + 1 == |w.conns| then Ledger(l.tasks + RunningTasks(Last(w)), l.main || w.sub.Some?) else l
    case _ => l
  }

  /** The ledger at the end of a run. */
  ghost function Listeners(l: Ledger, w: World, actions: seq<Action>, orderly: bool): Ledger
    requires Run(w, actions, orderly)
    decreases |actions|
  {
    if actions == [] then l else Listeners(Recorded(l, w, actions[0]), Next(w, actions[0]), actions[1..], orderly)
  }

  /** The last connection: a task has ended or has a signal to read exactly when it was running when one was sent. */
  ghost predicate ConnInv(c: Conn, l: Ledger) {
    && (c.control.Ended? ==> !c.close.Held?)
    && (c.close.Dropped? ==> c.control.Ended?)
    && forall who :: who in l.tasks <==> EndedOrPending(TaskOf(c, who))
  }

  ghost predicate Inv(w: World, l: Ledger) {
    var n := |w.conns|;
    && MainInv(w.main) && !w.main.panicked
    && (forall i :: 0 <= i < n - 1 ==> AllEnded(w.conns[i]))
    && (w.main.handles ==> n > 0 && ConnInv(Last(w), l))
    && (!w.main.handles ==> forall i :: 0 <= i < n ==> AllEnded(w.conns[i]))
    && (w.sub.Some? ==> w.main.status.Connected?)
    && match w.main.status
       case Ready => !w.main.handles
       case Connecting => !w.main.handles
       case Connected => w.main.handles && (l.main <==> w.sub.Some? && w.sub.value > 0)
       case Disconnected => true
       case Offline => w.main.exited <==> !w.main.handles
  }

  lemma BroadcastKeeps(c: Conn, l: Ledger, main: bool)
    requires ConnInv(c, l)
    ensures ConnInv(Broadcast(c), Ledger(l.tasks + RunningTasks(c), main))
  {
  }

  lemma TaskEndKeeps(c: Conn, l: Ledger, who: Who)
    requires ConnInv(c, l) && SignalPending(TaskOf(c, who))
    ensures ConnInv(SetTask(c, who, Ended), l)
  {
    forall other ensures other in l.tasks <==> EndedOrPending(TaskOf(SetTask(c, who, Ended), other)) {
      if other != who { assert TaskOf(SetTask(c, who, Ended), other) == TaskOf(c, other); }
    }
  }

  /** Steps of tasks act on the last connection only: all others have ended. */
  lemma TaskStepKeeps(w: World, a: Action, l: Ledger)
    requires Inv(w, l) && Enabled(w, a) && !a.MainTurn? && !a.MainSubscribe? && !a.MainWake?
    ensures Inv(Next(w, a), Recorded(l, w, a))
  {
    hide MainInv;
    var t := Next(w, a);
    var c := w.conns[a.i];
    assert a.i + 1 == |w.conns| && w.main.handles by {
      assert !AllEnded(c);
    }
    match a {
      case SeeSignal(_, who) => TaskEndKeeps(c, l, who);
      case Raise(_, who) =>
        var m := Recorded(l, w, a);
        BroadcastKeeps(c, l, m.main);
        if !who.MessageTask? { TaskEndKeeps(Broadcast(c), m, who); }
      case _ =>
    }
    assert ConnInv(t.conns[a.i], Recorded(l, w, a));
  }

  lemma MainTurnKeeps(w: World, connectOk: bool, l: Ledger)
    requires Inv(w, l) && Enabled(w, MainTurn(connectOk))
    ensures Inv(Next(w, MainTurn(connectOk)), Recorded(l, w, MainTurn(connectOk)))
  {
    TurnKeepsInv(w.main, Input(connectOk, Signalled, true));
    MainEnds(w.main);
    hide MainInv, AllEnded;
    var t := Next(w, MainTurn(connectOk));
    if t.conns != w.conns {
      assert t.conns[..|w.conns|] == w.conns;
      assert forall i :: 0 <= i < |w.conns| ==> t.conns[i] == w.conns[i];
    }
  }

  lemma MainWakeKeeps(w: World, wake: Wake, l: Ledger)
    requires Inv(w, l) && Enabled(w, MainWake(wake))
    ensures Inv(Next(w, MainWake(wake)), Recorded(l, w, MainWake(wake)))
  {
    TurnKeepsInv(w.main, Input(true, wake, true));
    BroadcastKeeps(Last(w), l, l.main);
  }

  lemma StepKeepsInv(w: World, a: Action, l: Ledger)
    requires Inv(w, l) && Enabled(w, a)
    ensures Inv(Next(w, a), Recorded(l, w, a))
  {
    match a {
      case MainTurn(ok) => MainTurnKeeps(w, ok, l);
      case MainSubscribe => assert Inv(Next(w, a), l);
      case MainWake(wake) => MainWakeKeeps(w, wake, l);
      case _ => TaskStepKeeps(w, a, l);
    }
  }

  lemma {:induction false} RunKeepsInv(w: World, actions: seq<Action>, orderly: bool, l: Ledger)
    requires Inv(w, l) && Run(w, actions, orderly)
    ensures Inv(Final(w, actions, orderly), Listeners(l, w, actions, orderly))
    decreases |actions|
  {
    hide Inv, Next, Recorded, Orderly;
    if actions != [] {
      StepKeepsInv(w, actions[0], l);
      RunKeepsInv(Next(w, actions[0]), actions[1..], orderly, Recorded(l, w, actions[0]));
    }
  }

  ghost predicate Live(t: Task) {
    !t.Ended?
  }

  /** Tasks of two different connections are never alive together. */
  ghost predicate OneGeneration(w: World) {
    forall i, j, a, b :: 0 <= i < j < |w.conns| && Live(TaskOf(w.conns[i], a)) ==> !Live(TaskOf(w.conns[j], b))
  }

  /** The main loop waits for the tasks of a connection to end. */
  predicate Joining(w: World) {
    (w.main.status.Disconnected? || w.main.status.Offline?) && w.main.handles && w.conns != []
  }

  /** While the main loop waits to join, every live task has a disconnect signal to read. */
  ghost predicate JoinsAreWoken(w: World) {
    Joining(w) ==> forall who :: EndedOrPending(TaskOf(Last(w), who))
  }

  /** The main loop has something to wake up for. */
  predicate MainWakes(w: World)
    requires w.conns != []
  {
    (w.sub.Some? && w.sub.value > 0) || !Last(w).close.Held?
  }

  ghost predicate SomeTaskEnded(w: World)
    requires w.conns != []
  {
    exists who :: TaskOf(Last(w), who).Ended?
  }

  /** Once a task of the current connection has ended, the main loop or the control task has something to wake up for. */
  ghost predicate NoLostWakeup(w: World) {
    w.main.status.Connected? ==>
      w.conns != [] && (SomeTaskEnded(w) ==> MainWakes(w) || SignalPending(Last(w).control))
  }

  /**
   * Over every interleaving: one generation of tasks at a time, no failed `expect`, notifications in the language,
   * and nothing alive at the end. The two wake-up properties hold exactly when the right tasks were listening: the
   * main loop or the control task heard a signal, or a close request was sent; and every task being joined was
   * running when some signal was sent.
   */
  lemma LifecycleSafety(actions: seq<Action>)
    requires Run(BEGIN, actions, false)
    ensures var w := Final(BEGIN, actions, false);
            && OneGeneration(w) && !w.main.panicked && InLanguage(w.main.notes)
            && (w.main.exited ==> Complete(w.main.notes))
            && (w.main.exited || !w.main.handles ==> forall i :: 0 <= i < |w.conns| ==> AllEnded(w.conns[i]))
    ensures var w, l := Final(BEGIN, actions, false), Listeners(NOBODY, BEGIN, actions, false);
            && (w.main.status.Connected? ==>
                  w.conns != []
                  && (NoLostWakeup(w) <==> !SomeTaskEnded(w) || Last(w).close.Sent? || ControlTask in l.tasks || l.main))
            && (Joining(w) ==> (JoinsAreWoken(w) <==> forall who: Who :: who in l.tasks))
  {
    hide MainInv;
    InitInv();
    RunKeepsInv(BEGIN, actions, false, NOBODY);
    var w, l := Final(BEGIN, actions, false), Listeners(NOBODY, BEGIN, actions, false);
    InvInLanguage(w.main);
    MainEnds(w.main);
    if w.main.status.Connected? {
      assert TaskOf(Last(w), ControlTask) == Last(w).control;
    }
  }

  /** Nobody has asked to close: no close request was sent, and the main loop has not gone offline. */
  ghost predicate StaysOpen(w: World) {
    !SaysOffline(w.main) && forall i :: 0 <= i < |w.conns| ==> !w.conns[i].close.Sent?
  }

  lemma StepStaysOpen(w: World, a: Action)
    requires StaysOpen(w) && Enabled(w, a) && !a.CloseRequest?
    ensures StaysOpen(Next(w, a))
  {
    hide SaysOffline;
    match a {
      case MainTurn(ok) =>
        if SaysOffline(Next(w, a).main) { TurnSaysOffline(w.main, Input(ok, Signalled, true)); }
      case MainWake(wake) =>
        if SaysOffline(Next(w, a).main) { TurnSaysOffline(w.main, Input(true, wake, true)); }
      case _ =>
    }
  }

  lemma {:induction false} RunStaysOpen(w: World, actions: seq<Action>)
    requires StaysOpen(w) && Run(w, actions, false) && forall a :: a in actions ==> !a.CloseRequest?
    ensures StaysOpen(Final(w, actions, false))
    decreases |actions|
  {
    hide StaysOpen, Enabled, Next;
    if actions != [] {
      StepStaysOpen(w, actions[0]);
      RunStaysOpen(Next(w, actions[0]), actions[1..]);
    }
  }

  /** Over every interleaving the loop ends, goes offline or says so only after a close request of some connection. */
  lemma OfflineNeedsCloseRequest(actions: seq<Action>)
    requires Run(BEGIN, actions, false) && SaysOffline(Final(BEGIN, actions, false).main)
    ensures exists a :: a in actions && a.CloseRequest?
  {
    if forall a :: a in actions ==> !a.CloseRequest? {
      StartIsOnline();
      RunStaysOpen(BEGIN, actions);
      assert false;
    }
  }

  lemma MainEnds(m: Main)
    requires MainInv(m)
    ensures m.exited ==> m.status.Offline?
  {
  }

  lemma InitInv()
    ensures Inv(BEGIN, NOBODY)
  {
  }

  /** On an orderly schedule a signal finds every task listening, or none was sent yet. */
  ghost predicate AllOrNobody(w: World, l: Ledger) {
    && (w.main.handles ==> l == NOBODY || forall who: Who :: who in l.tasks)
    && (w.main.handles && !w.main.status.Connected? ==> forall who: Who :: who in l.tasks)
  }

  lemma OrderlyStep(w: World, a: Action, l: Ledger)
    requires Inv(w, l) && Enabled(w, a) && Orderly(w, a) && AllOrNobody(w, l)
    ensures AllOrNobody(Next(w, a), Recorded(l, w, a))
  {
    hide MainInv;
    if a.Raise? && w.main.handles && a.i + 1 == |w.conns| {
      assert forall who: Who :: !TaskOf(Last(w), who).Unstarted?;
    } else if a.MainWake? {
      assert forall who: Who :: !TaskOf(Last(w), who).Unstarted?;
    }
  }

  lemma {:induction false} OrderlyRun(w: World, actions: seq<Action>, l: Ledger)
    requires Inv(w, l) && AllOrNobody(w, l) && Run(w, actions, true)
    ensures AllOrNobody(Final(w, actions, true), Listeners(l, w, actions, true))
    decreases |actions|
  {
    hide Inv, AllOrNobody, Next, Recorded, Orderly;
    if actions != [] {
      StepKeepsInv(w, actions[0], l);
      OrderlyStep(w, actions[0], l);
      OrderlyRun(Next(w, actions[0]), actions[1..], Recorded(l, w, actions[0]));
    }
  }

  /** Over every orderly interleaving no wake-up is lost. */
  lemma OrderlyRunsWake(actions: seq<Action>)
    requires Run(BEGIN, actions, true)
    ensures var w := Final(BEGIN, actions, true); JoinsAreWoken(w) && NoLostWakeup(w)
  {
    hide MainInv;
    InitInv();
    RunKeepsInv(BEGIN, actions, true, NOBODY);
    OrderlyRun(BEGIN, actions, NOBODY);
    var w := Final(BEGIN, actions, true);
    if w.main.status.Connected? {
      assert TaskOf(Last(w), ControlTask) == Last(w).control;
    }
  }

  /**
   * In a connected state that can be reached, and in which the main loop or the control task has heard a signal or
   * a close request was sent, a schedule of at most three enabled steps takes the main loop out of `Connected`.
   */
  lemma WakeupInThreeSteps(w: World, l: Ledger) returns (actions: seq<Action>)
    requires Inv(w, l) && w.main.status.Connected?
    requires Last(w).close.Sent? || ControlTask in l.tasks || l.main
    ensures |actions| <= 3 && Run(w, actions, false) && !Final(w, actions, false).main.status.Connected?
  {
    hide MainInv;
    MainHasChannels(w.main);
    assert TaskOf(Last(w), ControlTask) == Last(w).control;
    var w1 := w;
    var first: seq<Action> := [];
    if w.sub.None? {
      first := [MainSubscribe];
      w1 := Next(w, MainSubscribe);
    }
    if MainWakes(w1) {
      var wake := if w1.sub.value > 0 then Signalled else if Last(w1).close.Sent? then CloseRequested else CloseDropped;
      actions := first + [MainWake(wake)];
      RunOfOne(w1, MainWake(wake));
      if first != [] { RunOfFirst(w, MainSubscribe, [MainWake(wake)]); assert actions == [MainSubscribe] + [MainWake(wake)]; }
      else { assert actions == [MainWake(wake)]; }
    } else {
      var see := SeeSignal(|w1.conns| - 1, ControlTask);
      var w2 := Next(w1, see);
      var rest := [see] + [MainWake(CloseDropped)];
      RunOfOne(w2, MainWake(CloseDropped));
      RunOfFirst(w1, see, [MainWake(CloseDropped)]);
      actions := first + rest;
      if first != [] { RunOfFirst(w, MainSubscribe, rest); assert actions == [MainSubscribe] + rest; }
      else { assert actions == rest; }
    }
  }

  lemma MainHasChannels(m: Main)
    requires MainInv(m) && m.status.Connected?
    ensures !m.exited && m.closeReceiver && m.disconnectChannel
  {
  }

  lemma RunOfOne(w: World, a: Action)
    requires Enabled(w, a)
    ensures Run(w, [a], false) && Final(w, [a], false) == Next(w, a)
  {
    assert [a][1..] == [];
  }

  lemma RunOfFirst(w: World, a: Action, rest: seq<Action>)
    requires Enabled(w, a) && Run(Next(w, a), rest, false)
    ensures Run(w, [a] + rest, false) && Final(w, [a] + rest, false) == Final(Next(w, a), rest, false)
  {
    assert ([a] + rest)[1..] == rest;
  }

  /**
   * Without the assumption a wake-up can be lost: a signal sent before the control task and the main loop have
   * subscribed leaves both waiting on a connection whose other two tasks are gone.
   */
  lemma EarlySignalIsLost()
    ensures var actions := [MainTurn(true), MainTurn(true), StartTask(0, MessageTask), StartTask(0, PingTask)]
                           + [Raise(0, MessageTask), SeeSignal(0, MessageTask), SeeSignal(0, PingTask), StartTask(0, ControlTask), MainSubscribe];
            && Run(BEGIN, actions, false)
            && var w := Final(BEGIN, actions, false); w.main.status.Connected? && !NoLostWakeup(w)
  {
    hide Run, Final;
    var w1 := Next(BEGIN, MainTurn(true));
    var w2 := Next(w1, MainTurn(true));
    assert w2.conns == [Conn(Unstarted, Unstarted, Unstarted, Held)];
    var w3 := Next(w2, StartTask(0, MessageTask));
    var w4 := Next(w3, StartTask(0, PingTask));
    assert w4.conns == [Conn(Unstarted, Running(0), Running(0), Held)];
    SignalMissed(w4);
    var rest := [Raise(0, MessageTask), SeeSignal(0, MessageTask), SeeSignal(0, PingTask), StartTask(0, ControlTask), MainSubscribe];
    RunOfFirst(w3, StartTask(0, PingTask), rest);
    var a3 := [StartTask(0, PingTask)] + rest;
    RunOfFirst(w2, StartTask(0, MessageTask), a3);
    var a2 := [StartTask(0, MessageTask)] + a3;
    RunOfFirst(w1, MainTurn(true), a2);
    var a1 := [MainTurn(true)] + a2;
    RunOfFirst(BEGIN, MainTurn(true), a1);
    assert [MainTurn(true)] + a1 ==
           [MainTurn(true), MainTurn(true), StartTask(0, MessageTask), StartTask(0, PingTask)] + rest;
  }

  lemma SignalMissed(w4: World)
    requires w4.main.status.Connected? && w4.sub.None?
    requires w4.conns == [Conn(Unstarted, Running(0), Running(0), Held)]
    ensures var actions := [Raise(0, MessageTask), SeeSignal(0, MessageTask), SeeSignal(0, PingTask), StartTask(0, ControlTask), MainSubscribe];
            && Run(w4, actions, false)
            && var w := Final(w4, actions, false); w.main.status.Connected? && !NoLostWakeup(w)
  {
    hide Run, Final;
    var w5 := Next(w4, Raise(0, MessageTask));
    assert w5.conns == [Conn(Unstarted, Running(1), Running(1), Held)];
    var w6 := Next(w5, SeeSignal(0, MessageTask));
    var w7 := Next(w6, SeeSignal(0, PingTask));
    var w8 := Next(w7, StartTask(0, ControlTask));
    var w9 := Next(w8, MainSubscribe);
    assert w9.conns == [Conn(Running(0), Ended, Ended, Held)];
    assert TaskOf(Last(w9), MessageTask).Ended?;
    RunOfOne(w8, MainSubscribe);
    RunOfFirst(w7, StartTask(0, ControlTask), [MainSubscribe]);
    var a7 := [StartTask(0, ControlTask)] + [MainSubscribe];
    RunOfFirst(w6, SeeSignal(0, PingTask), a7);
    var a6 := [SeeSignal(0, PingTask)] + a7;
    RunOfFirst(w5, SeeSignal(0, MessageTask), a6);
    var a5 := [SeeSignal(0, MessageTask)] + a6;
    RunOfFirst(w4, Raise(0, MessageTask), a5);
    assert [Raise(0, MessageTask)] + a5 ==
           [Raise(0, MessageTask), SeeSignal(0, MessageTask), SeeSignal(0, PingTask), StartTask(0, ControlTask), MainSubscribe];
  }
}
