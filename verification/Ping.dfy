/** Keep-alive: a loop that asks for a ping after half a minute of silence and gives the connection up after a minute. */
module PingManager {

  /** Durations in nanoseconds. */
  const SECOND: nat := 1_000_000_000
  const PING_AFTER: nat := 30 * SECOND
  const GIVE_UP_AFTER: nat := 60 * SECOND

  function SaturatingSub(a: nat, b: nat): nat {
    if a >= b then a - b else 0
  }

  datatype Note = Started(at: nat) | Responded(at: nat) | Pinged(at: nat) | GaveUp(at: nat) | Stopped(at: nat)

  datatype KeepAlive = KeepAlive(lastResponse: nat, waitingForPong: bool, running: bool, trace: seq<Note>)

  /** A turn of the ping loop (whether a disconnect signal is pending, whether the shared timer can be read), or a message from the server. */
  datatype Action = Tick(now: nat, signalled: bool, readable: bool) | Response(now: nat)

  function Begin(now: nat): KeepAlive {
    KeepAlive(now, false, true, [Started(now)])
  }

  function Next(s: KeepAlive, a: Action): KeepAlive {
    match a
    case Response(now) => s.(lastResponse := now, trace := s.trace + [Responded(now)])
    case Tick(now, signalled, readable) =>
      var silence := SaturatingSub(now, s.lastResponse);
      if !s.running then s
      else if signalled then s.(running := false, trace := s.trace + [Stopped(now)])
      else if !readable then s
      else if silence > GIVE_UP_AFTER then s.(running := false, trace := s.trace + [GaveUp(now)])
      else if !s.waitingForPong && silence > PING_AFTER then s.(waitingForPong := true, trace := s.trace + [Pinged(now)])
      else if s.waitingForPong && silence <= PING_AFTER then s.(waitingForPong := false)
      else s
  }

  function After(s: KeepAlive, actions: seq<Action>): KeepAlive {
    if actions == [] then s else Next(After(s, actions[..|actions| - 1]), actions[|actions| - 1])
  }

  class Manager {
    var lastResponse: nat
    var waitingForPong: bool
    var running: bool
    var trace: seq<Note>

    function State(): KeepAlive
      reads this
    {
      KeepAlive(lastResponse, waitingForPong, running, trace)
    }

    constructor (now: nat)
      ensures State() == Begin(now)
    {
      lastResponse := now;
      waitingForPong := false;
      running := true;
      trace := [Started(now)];
    }

    /** The message task notes the arrival time of every message. `clock`: when the state was last looked at. */
    method OnMessage(now: nat, ghost clock: nat)
      requires Inv(State(), clock) && clock <= now
      modifies this
      ensures State() == Next(old(State()), Response(now))
      ensures Inv(State(), now) && LastHeard(trace) == now && Unanswered(trace) == []
    {
      StepKeepsInv(State(), clock, Response(now));
      lastResponse := now;
      trace := trace + [Responded(now)];
    }

    /**
     * One turn of the loop. It ends the loop exactly on a signal, or when it can see that nothing was heard for
     * more than a minute; it pings only after half a minute to a minute of silence, and never while a ping is
     * unanswered. What `KeepAliveRun` promises of whole runs is kept.
     */
    method Turn(now: nat, signalled: bool, readable: bool, ghost clock: nat)
      requires running && Inv(State(), clock) && clock <= now
      modifies this
      ensures State() == Next(old(State()), Tick(now, signalled, readable))
      ensures Inv(State(), now)
      ensures var silent := now > LastHeard(old(trace)) + 60_000_000_000;
              && (running <==> !signalled && !(readable && silent))
              && (trace == old(trace) + [Stopped(now)] <==> signalled)
              && (trace == old(trace) + [GaveUp(now)] <==> !signalled && readable && silent)
      ensures var quiet := LastHeard(old(trace)) + 30_000_000_000 < now <= LastHeard(old(trace)) + 60_000_000_000;
              && (trace == old(trace) + [Pinged(now)] <==> !signalled && readable && quiet && !old(waitingForPong))
              && (trace == old(trace) + [Pinged(now)] ==> Unanswered(old(trace)) == [] && waitingForPong)
      // a response of the last half minute ends the wait for one
      ensures !signalled && readable && now <= LastHeard(old(trace)) + 30_000_000_000 ==> !waitingForPong
    {
      hide PingsAreAnswered, GivesUpOnlyOnSilence, LastHeard, Unanswered;
      StepKeepsInv(State(), clock, Tick(now, signalled, readable));
      NotesDiffer(trace, now);
      if signalled {
        trace := trace + [Stopped(now)];
        running := false;
        return;
      }
      if readable {
        if SaturatingSub(now, lastResponse) > GIVE_UP_AFTER {
          trace := trace + [GaveUp(now)];
          running := false;
        } else if !waitingForPong && SaturatingSub(now, lastResponse) > PING_AFTER {
          trace := trace + [Pinged(now)];
          waitingForPong := true;
        } else if waitingForPong && SaturatingSub(now, lastResponse) <= PING_AFTER {
          waitingForPong := false;
        }
      }
    }
  }

  /** The clock never runs backwards. */
  ghost predicate Monotone(start: nat, actions: seq<Action>) {
    && (actions != [] ==> start <= actions[0].now)
    && forall i, j :: 0 <= i < j < |actions| ==> actions[i].now <= actions[j].now
  }

  /** When the server was last heard of, or the loop started. */
  function LastHeard(trace: seq<Note>): nat {
    if trace == [] then 0
    else if trace[|trace| - 1].Started? || trace[|trace| - 1].Responded? then trace[|trace| - 1].at
    else LastHeard(trace[..|trace| - 1])
  }

  /** The time of a ping that no response has followed yet. */
  function Unanswered(trace: seq<Note>): (r: seq<nat>)
    ensures |r| <= 1
  {
    if trace == [] || trace[|trace| - 1].Responded? then []
    else if trace[|trace| - 1].Pinged? then [trace[|trace| - 1].at]
    else Unanswered(trace[..|trace| - 1])
  }

  /** Between any two pings there is a response. */
  ghost predicate PingsAreAnswered(trace: seq<Note>) {
    forall i, j :: 0 <= i < j < |trace| && trace[i].Pinged? && trace[j].Pinged? ==>
      exists k :: i < k < j && trace[k].Responded?
  }

  /** The connection is given up only after more than a minute of silence. */
  ghost predicate GivesUpOnlyOnSilence(trace: seq<Note>) {
    forall i :: 0 <= i < |trace| && trace[i].GaveUp? ==> trace[i].at > LastHeard(trace[..i]) + 60_000_000_000
  }

  ghost predicate Inv(s: KeepAlive, clock: nat) {
    && s.lastResponse == LastHeard(s.trace) && s.lastResponse <= clock
    && PingsAreAnswered(s.trace) && GivesUpOnlyOnSilence(s.trace)
    && (Unanswered(s.trace) != [] ==>
          s.waitingForPong && s.lastResponse + PING_AFTER < Unanswered(s.trace)[0] <= clock)
  }

  lemma {:induction false} AnsweredPing(trace: seq<Note>, i: nat)
    requires i < |trace| && trace[i].Pinged? && Unanswered(trace) == []
    ensures exists k :: i < k < |trace| && trace[k].Responded?
  {
    var n := |trace| - 1;
    if !trace[n].Responded? {
      AnsweredPing(trace[..n], i);
      var k :| i < k < n && trace[..n][k].Responded?;
      assert trace[k].Responded?;
    }
  }

  lemma NoteKeeps(trace: seq<Note>, note: Note)
    requires PingsAreAnswered(trace) && GivesUpOnlyOnSilence(trace)
    requires note.Pinged? ==> Unanswered(trace) == []
    requires note.GaveUp? ==> note.at > LastHeard(trace) + GIVE_UP_AFTER
    ensures PingsAreAnswered(trace + [note]) && GivesUpOnlyOnSilence(trace + [note])
    ensures LastHeard(trace + [note]) == if note.Started? || note.Responded? then note.at else LastHeard(trace)
    ensures Unanswered(trace + [note]) == if note.Responded? then [] else if note.Pinged? then [note.at] else Unanswered(trace)
  {
    var t := trace + [note];
    assert t[..|trace|] == trace;
    forall i, j | 0 <= i < j < |t| && t[i].Pinged? && t[j].Pinged? ensures exists k :: i < k < j && t[k].Responded? {
      if j < |trace| {
        var k :| i < k < j && trace[k].Responded?;
        assert t[k].Responded?;
      } else {
        AnsweredPing(trace, i);
        var k :| i < k < |trace| && trace[k].Responded?;
        assert t[k].Responded?;
      }
    }
    forall i | 0 <= i < |t| && t[i].GaveUp? ensures t[i].at > LastHeard(t[..i]) + GIVE_UP_AFTER {
      if i < |trace| { assert t[..i] == trace[..i]; }
    }
  }

  lemma NotesDiffer(trace: seq<Note>, now: nat)
    ensures trace + [Stopped(now)] != trace + [GaveUp(now)] && trace + [GaveUp(now)] != trace + [Pinged(now)]
    ensures trace + [Pinged(now)] != trace + [Stopped(now)]
  {
    var n := |trace|;
    assert (trace + [Stopped(now)])[n].Stopped? && (trace + [GaveUp(now)])[n].GaveUp? && (trace + [Pinged(now)])[n].Pinged?;
  }

  lemma StepKeepsInv(s: KeepAlive, clock: nat, a: Action)
    requires Inv(s, clock) && clock <= a.now
    ensures Inv(Next(s, a), a.now)
  {
    hide PingsAreAnswered, GivesUpOnlyOnSilence, LastHeard, Unanswered;
    var t := Next(s, a);
    if t.trace != s.trace {
      NoteKeeps(s.trace, t.trace[|s.trace|]);
    }
  }

  /** Over every run with a monotone clock: pings are separated by responses, and nobody gives up within a minute of a response. */
  lemma {:induction false} KeepAliveRun(start: nat, actions: seq<Action>)
    requires Monotone(start, actions)
    ensures var s := After(Begin(start), actions);
            && PingsAreAnswered(s.trace) && GivesUpOnlyOnSilence(s.trace)
            && Inv(s, if actions == [] then start else actions[|actions| - 1].now)
  {
    if actions == [] {
      var trace := Begin(start).trace;
      assert trace[..0] == [] && Unanswered(trace) == [];
    } else {
      var init := actions[..|actions| - 1];
      KeepAliveRun(start, init);
      StepKeepsInv(After(Begin(start), init), if init == [] then start else init[|init| - 1].now, actions[|actions| - 1]);
    }
  }

  /** Turns of the loop on a connection that stays silent, at the given times. */
  function Silent(times: seq<nat>): seq<Action> {
    seq(|times|, i requires 0 <= i < |times| => Tick(times[i], false, true))
  }

  ghost predicate Ascending(start: nat, times: seq<nat>) {
    && (times != [] ==> start <= times[0])
    && forall i, j :: 0 <= i < j < |times| ==> times[i] <= times[j]
  }

  /** The first turn that finds more than a minute of silence gives up. */
  ghost function FirstLate(start: nat, times: seq<nat>): seq<nat> {
    if times == [] then []
    else
      var before := FirstLate(start, times[..|times| - 1]);
      if before != [] then before
      else if times[|times| - 1] > start + GIVE_UP_AFTER then [times[|times| - 1]] else []
  }

  /** The first turn that finds between half a minute and a minute of silence. */
  ghost function FirstQuiet(start: nat, times: seq<nat>): seq<nat> {
    if times == [] then []
    else
      var before := FirstQuiet(start, times[..|times| - 1]);
      if before != [] then before
      else if start + PING_AFTER < times[|times| - 1] <= start + GIVE_UP_AFTER then [times[|times| - 1]] else []
  }

  function Pings(times: seq<nat>): seq<Note> {
    seq(|times|, i requires 0 <= i < |times| => Pinged(times[i]))
  }

  function GiveUps(times: seq<nat>): seq<Note> {
    seq(|times|, i requires 0 <= i < |times| => GaveUp(times[i]))
  }

  lemma {:induction false} LateIsLate(start: nat, times: seq<nat>)
    requires Ascending(start, times)
    ensures FirstLate(start, times) != [] <==> times != [] && times[|times| - 1] > start + GIVE_UP_AFTER
  {
    if |times| > 1 {
      LateIsLate(start, times[..|times| - 1]);
    }
  }

  /** Turns at the given times have taken a loop that was not waiting for a response, at `from`, to `s`. */
  ghost predicate SilentState(from: KeepAlive, times: seq<nat>, s: KeepAlive) {
    var start := from.lastResponse;
    && s.lastResponse == start
    && s.trace == from.trace + Pings(FirstQuiet(start, times)) + GiveUps(FirstLate(start, times))
    && (s.waitingForPong <==> FirstQuiet(start, times) != [])
    && (s.running <==> FirstLate(start, times) == [])
  }

  lemma OneNote(now: nat)
    ensures Pings([]) == [] && GiveUps([]) == [] && Pings([now]) == [Pinged(now)] && GiveUps([now]) == [GaveUp(now)]
  {
  }

  lemma SilentStep(from: KeepAlive, times: seq<nat>, s: KeepAlive)
    requires times != [] && Ascending(from.lastResponse, times) && SilentState(from, times[..|times| - 1], s)
    ensures SilentState(from, times, Next(s, Tick(times[|times| - 1], false, true)))
  {
    hide Pings, GiveUps;
    var start, init, now := from.lastResponse, times[..|times| - 1], times[|times| - 1];
    LateIsLate(start, init);
    LateIsLate(start, times);
    QuietExists(start, init);
    OneNote(now);
    var quiet := from.trace + Pings(FirstQuiet(start, init));
    assert quiet + [] == quiet && from.trace + [] == from.trace;
    assert from.trace + [Pinged(now)] + [] == from.trace + [Pinged(now)];
  }

  /**
   * The whole trace of a connection that falls silent: at most one ping, then giving up at the first turn past a
   * minute. It does not matter what came before, as long as no ping is outstanding.
   */
  lemma {:induction false} SilentTrace(from: KeepAlive, times: seq<nat>)
    requires from.running && !from.waitingForPong && Ascending(from.lastResponse, times)
    ensures SilentState(from, times, After(from, Silent(times)))
  {
    hide SilentState, Next;
    if times == [] {
      SilentStart(from);
    } else {
      var init := times[..|times| - 1];
      SilentTrace(from, init);
      assert Silent(times)[..|times| - 1] == Silent(init);
      SilentStep(from, times, After(from, Silent(init)));
    }
  }

  lemma SilentStart(from: KeepAlive)
    requires from.running && !from.waitingForPong
    ensures SilentState(from, [], from)
  {
    OneNote(0);
    assert from.trace + [] + [] == from.trace;
  }

  lemma {:induction false} AfterSplit(s: KeepAlive, a: seq<Action>, b: seq<Action>)
    ensures After(s, a + b) == After(After(s, a), b)
  {
    hide Next;
    if b == [] {
      assert a + b == a;
    } else {
      assert (a + b)[..|a + b| - 1] == a + b[..|b| - 1];
      AfterSplit(s, a, b[..|b| - 1]);
    }
  }

  /**
   * A response that some turn sees within half a minute starts everything anew, from any running state, whether or not
   * a ping was outstanding: the next silence is pinged once and then given up, like the first.
   */
  lemma ResponseRestarts(s: KeepAlive, heard: nat, seen: nat, times: seq<nat>)
    requires s.running && heard <= seen <= heard + 30_000_000_000 && Ascending(heard, times)
    ensures var t := After(s, [Response(heard), Tick(seen, false, true)] + Silent(times));
            && t.trace == s.trace + [Responded(heard)] + Pings(FirstQuiet(heard, times)) + GiveUps(FirstLate(heard, times))
            && (t.running <==> FirstLate(heard, times) == [])
  {
    hide SilentState, FirstQuiet, FirstLate, Pings, GiveUps;
    var actions := [Response(heard), Tick(seen, false, true)];
    AfterSplit(s, actions, Silent(times));
    assert actions[..1] == [Response(heard)] && actions[..1][..0] == [];
    assert After(s, actions[..1]) == Next(s, Response(heard));
    var from := After(s, actions);
    assert !from.waitingForPong && from.running && from.lastResponse == heard && from.trace == s.trace + [Responded(heard)];
    SilentTrace(from, times);
    SilentParts(from, times, After(from, Silent(times)));
  }

  lemma SilentParts(from: KeepAlive, times: seq<nat>, s: KeepAlive)
    requires SilentState(from, times, s)
    ensures s.trace == from.trace + Pings(FirstQuiet(from.lastResponse, times)) + GiveUps(FirstLate(from.lastResponse, times))
    ensures s.running <==> FirstLate(from.lastResponse, times) == []
  {
  }

  lemma {:induction false} QuietExists(start: nat, times: seq<nat>)
    ensures FirstQuiet(start, times) != [] <==> exists i :: 0 <= i < |times| && start + PING_AFTER < times[i] <= start + GIVE_UP_AFTER
  {
    if times != [] {
      QuietExists(start, times[..|times| - 1]);
    }
  }

  /**
   * On a silent connection that is given up, a ping came first exactly when some turn fell between half a minute
   * and a minute of silence; with turns at most half a minute apart one always does.
   */
  lemma PingPrecedesGivingUp(start: nat, times: seq<nat>)
    requires Ascending(start, times)
    requires times != [] && times[|times| - 1] > start + GIVE_UP_AFTER
    ensures var s := After(Begin(start), Silent(times));
            && !s.running && s.trace != [] && FirstLate(start, times) != [] && s.trace[|s.trace| - 1] == GaveUp(FirstLate(start, times)[0])
            && ((|s.trace| == 3 && s.trace[1].Pinged?)
                <==> exists i :: 0 <= i < |times| && start + PING_AFTER < times[i] <= start + GIVE_UP_AFTER)
    ensures times[0] <= start + PING_AFTER && (forall i :: 0 < i < |times| ==> times[i] <= times[i - 1] + PING_AFTER) ==>
              exists i :: 0 <= i < |times| && start + PING_AFTER < times[i] <= start + GIVE_UP_AFTER
  {
    SilentTrace(Begin(start), times);
    LateIsLate(start, times);
    QuietExists(start, times);
    FirstsAreSingle(start, times);
    if times[0] <= start + PING_AFTER && (forall i :: 0 < i < |times| ==> times[i] <= times[i - 1] + PING_AFTER) {
      StepsLandInside(start, times);
    }
  }

  lemma {:induction false} FirstsAreSingle(start: nat, times: seq<nat>)
    ensures |FirstLate(start, times)| <= 1 && |FirstQuiet(start, times)| <= 1
  {
    if times != [] { FirstsAreSingle(start, times[..|times| - 1]); }
  }

  lemma {:induction false} StepsLandInside(start: nat, times: seq<nat>)
    requires times != [] && times[0] <= start + PING_AFTER
    requires forall i :: 0 < i < |times| ==> times[i] <= times[i - 1] + PING_AFTER
    requires times[|times| - 1] > start + PING_AFTER
    ensures exists i :: 0 <= i < |times| && start + PING_AFTER < times[i] <= start + GIVE_UP_AFTER
  {
    var n := |times| - 1;
    if times[n] > start + GIVE_UP_AFTER {
      assert times[n] <= times[n - 1] + PING_AFTER;
      StepsLandInside(start, times[..n]);
      var i :| 0 <= i < n && start + PING_AFTER < times[..n][i] <= start + GIVE_UP_AFTER;
      assert times[i] == times[..n][i];
    }
  }
}
