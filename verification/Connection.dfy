/** The main loop of the websocket connection and the notifications it broadcasts. */
module Connection {
  import opened Types

  datatype Status = Ready | Connecting | Connected | Disconnected | Offline

  datatype Note = NoteConnected | NoteError | NoteDisconnected | NoteOffline

  /** Why the wait in `Connected` ended: a disconnect signal, a close request, or a close sender that went away. */
  datatype Wake = Signalled | CloseRequested | CloseDropped

  /** The loop's variables. `panicked` is set where an `expect` fails: on a missing channel, or on joining a task that failed. */
  datatype Main = Main(status: Status, handles: bool, closeReceiver: bool, disconnectChannel: bool,
                       connectionCount: U32, notes: seq<Note>, exited: bool, panicked: bool)

  /** What one turn of the loop gets from outside. `joinOk`: the tasks whose handles are held all ended without failing. */
  datatype Input = Input(connectOk: bool, wake: Wake, joinOk: bool)

  const START := Main(Ready, false, false, false, 0, [], false, false)

  function Turn(m: Main, input: Input): Main {
    if m.exited || m.panicked then m
    else
      match m.status
      case Offline =>
        if m.handles && !input.joinOk then m.(panicked := true)
        else m.(handles := false, notes := m.notes + [NoteOffline], exited := true)
      case Ready => m.(status := Connecting)
      case Connecting =>
        var ok := input.connectOk;
        m.(status := if ok then Connected else Disconnected, handles := ok, closeReceiver := ok, disconnectChannel := ok,
           notes := m.notes + [if ok then NoteConnected else NoteError],
           connectionCount := (m.connectionCount + 1) % U32_RANGE)
      case Disconnected =>
        if m.handles && !input.joinOk then m.(panicked := true)
        else m.(handles := false, notes := m.notes + [NoteDisconnected], status := Ready)
      case Connected =>
        if !m.closeReceiver || !m.disconnectChannel then m.(panicked := true)
        else m.(closeReceiver := false, disconnectChannel := false,
                status := if input.wake.CloseRequested? then Offline else Disconnected)
  }

  function Turns(m: Main, inputs: seq<Input>): Main {
    if inputs == [] then m else Turn(Turns(m, inputs[..|inputs| - 1]), inputs[|inputs| - 1])
  }

  class Manager {
    var status: Status
    var handles: bool
    var closeReceiver: bool
    var disconnectChannel: bool
    var connectionCount: U32
    var notes: seq<Note>
    var exited: bool
    var panicked: bool

    function State(): Main
      reads this
    {
      Main(status, handles, closeReceiver, disconnectChannel, connectionCount, notes, exited, panicked)
    }

    constructor ()
      ensures State() == START
    {
      status := Ready;
      handles := false;
      closeReceiver := false;
      disconnectChannel := false;
      connectionCount := 0;
      notes := [];
      exited := false;
      panicked := false;
    }

    /** The loop, as far as the given inputs take it. */
    method Start(inputs: seq<Input>)
      requires State() == START
      modifies this
      ensures State() == Turns(START, inputs)
      ensures InLanguage(notes) && (exited ==> Complete(notes))
      ensures connectionCount == Attempts(notes) % 0x1_0000_0000
      ensures panicked <==> exists i :: 0 <= i < |inputs| && FailedJoin(inputs, i)
      ensures Story(notes, exited, panicked) == Told(inputs)
    {
      hide InLanguage, Complete, Attempts, FailedJoin, Told;
      var i := 0;
      assert inputs[..0] == [];
      while i < |inputs| && !exited && !panicked
        invariant 0 <= i <= |inputs| && State() == Turns(START, inputs[..i])
      {
        assert inputs[..i + 1][..i] == inputs[..i];
        match status {
          case Offline =>
            if handles && !inputs[i].joinOk {
              panicked := true;
            } else {
              handles := false;
              notes := notes + [NoteOffline];
              exited := true;
            }
          case Ready =>
            status := Connecting;
          case Connecting =>
            if inputs[i].connectOk {
              notes := notes + [NoteConnected];
              handles, closeReceiver, disconnectChannel := true, true, true;
              status := Connected;
            } else {
              notes := notes + [NoteError];
              handles, closeReceiver, disconnectChannel := false, false, false;
              status := Disconnected;
            }
            connectionCount := (connectionCount + 1) % U32_RANGE;
          case Disconnected =>
            if handles && !inputs[i].joinOk {
              panicked := true;
            } else {
              handles := false;
              notes := notes + [NoteDisconnected];
              status := Ready;
            }
          case Connected =>
            if !closeReceiver || !disconnectChannel {
              panicked := true;
            } else {
              closeReceiver, disconnectChannel := false, false;
              match inputs[i].wake {
                case Signalled => status := Disconnected;
                case CloseRequested => status := Offline;
                case CloseDropped => status := Disconnected;
              }
            }
        }
        i := i + 1;
      }
      StoppedStays(START, inputs, i);
      TurnsInLanguage(inputs);
      TurnsTellStory(inputs);
    }
  }

  lemma {:induction false} StoppedStays(m: Main, inputs: seq<Input>, i: nat)
    requires i <= |inputs|
    requires i == |inputs| || Turns(m, inputs[..i]).exited || Turns(m, inputs[..i]).panicked
    ensures Turns(m, inputs) == Turns(m, inputs[..i])
    decreases |inputs|
  {
    if i < |inputs| {
      var init := inputs[..|inputs| - 1];
      assert init[..i] == inputs[..i];
      StoppedStays(m, init, i);
    } else {
      assert inputs[..i] == inputs;
    }
  }

  predicate Attempt(n: Note) {
    n.NoteConnected? || n.NoteError?
  }

  function Attempts(notes: seq<Note>): nat {
    if notes == [] then 0 else Attempts(notes[..|notes| - 1]) + (if Attempt(notes[|notes| - 1]) then 1 else 0)
  }

  /** Any number of rounds of an attempt followed by a disconnection. */
  ghost predicate Rounds(notes: seq<Note>) {
    notes == []
    || (|notes| >= 2 && Attempt(notes[|notes| - 2]) && notes[|notes| - 1].NoteDisconnected? && Rounds(notes[..|notes| - 2]))
  }

  /** Rounds, then a connection that is closed for good. */
  ghost predicate Complete(notes: seq<Note>) {
    |notes| >= 2 && notes[|notes| - 2].NoteConnected? && notes[|notes| - 1].NoteOffline? && Rounds(notes[..|notes| - 2])
  }

  /** A prefix of some complete series. */
  ghost predicate InLanguage(notes: seq<Note>) {
    exists rest :: Complete(notes + rest)
  }

  /** Rounds and one more attempt, which must be a connection if `connected`. */
  ghost predicate OpenRound(notes: seq<Note>, connected: bool) {
    var n := |notes|;
    n > 0 && Attempt(notes[n - 1]) && (connected ==> notes[n - 1].NoteConnected?) && Rounds(notes[..n - 1])
  }

  /** The last notification tells of a connection whose tasks have not been joined. */
  predicate Unjoined(notes: seq<Note>) {
    notes != [] && notes[|notes| - 1].NoteConnected?
  }

  /** Turn `i` joins the tasks of a connection, and one of them has failed. */
  ghost predicate FailedJoin(inputs: seq<Input>, i: nat)
    requires i < |inputs|
  {
    var m := Turns(START, inputs[..i]);
    !m.panicked && (m.status.Disconnected? || m.status.Offline?) && Unjoined(m.notes) && !inputs[i].joinOk
  }

  ghost predicate MainInv(m: Main) {
    && (m.panicked ==> (m.status.Disconnected? || m.status.Offline?) && !m.exited)
    && (m.status.Disconnected? || m.status.Offline? ==> (m.handles <==> Unjoined(m.notes)))
    && m.connectionCount == Attempts(m.notes) % U32_RANGE
    && (m.exited ==> m.status.Offline? && !m.handles)
    && match m.status
       case Ready => Rounds(m.notes)
       case Connecting => Rounds(m.notes)
       case Connected => m.handles && m.closeReceiver && m.disconnectChannel && OpenRound(m.notes, true)
       case Disconnected => OpenRound(m.notes, false)
       case Offline => if m.exited then Complete(m.notes) else OpenRound(m.notes, true)
  }

  lemma AttemptsExtend(notes: seq<Note>, note: Note)
    ensures Attempts(notes + [note]) == Attempts(notes) + if Attempt(note) then 1 else 0
  {
    assert (notes + [note])[..|notes|] == notes;
  }

  lemma OpenARound(notes: seq<Note>, attempt: Note)
    requires Rounds(notes) && Attempt(attempt)
    ensures OpenRound(notes + [attempt], attempt.NoteConnected?)
  {
    assert (notes + [attempt])[..|notes|] == notes;
  }

  lemma CloseARound(notes: seq<Note>, connected: bool)
    requires OpenRound(notes, connected)
    ensures OpenRound(notes, false)
    ensures Rounds(notes + [NoteDisconnected])
    ensures connected ==> Complete(notes + [NoteOffline])
  {
    assert (notes + [NoteDisconnected])[..|notes| - 1] == notes[..|notes| - 1];
    assert (notes + [NoteOffline])[..|notes| - 1] == notes[..|notes| - 1];
  }

  lemma TurnKeepsInv(m: Main, input: Input)
    requires MainInv(m)
    ensures MainInv(Turn(m, input))
    ensures Turn(m, input).panicked
            <==> m.panicked || ((m.status.Disconnected? || m.status.Offline?) && Unjoined(m.notes) && !input.joinOk)
  {
    hide Attempts, Rounds, OpenRound, Complete;
    var note := if m.status.Connecting? then (if input.connectOk then NoteConnected else NoteError)
                else if m.status.Offline? then NoteOffline else NoteDisconnected;
    AttemptsExtend(m.notes, note);
    match m.status {
      case Ready =>
      case Connecting => OpenARound(m.notes, note);
      case Connected => CloseARound(m.notes, true);
      case Disconnected => CloseARound(m.notes, false);
      case Offline => if !m.exited { CloseARound(m.notes, true); }
    }
  }

  lemma RoundsComplete(notes: seq<Note>)
    requires Rounds(notes)
    ensures Complete(notes + [NoteConnected, NoteOffline])
  {
    assert (notes + [NoteConnected, NoteOffline])[..|notes|] == notes;
  }

  lemma InvInLanguage(m: Main)
    requires MainInv(m)
    ensures InLanguage(m.notes) && (m.exited ==> Complete(m.notes))
  {
    hide Attempts, Rounds, OpenRound, Complete;
    var notes := m.notes;
    if m.exited {
      assert notes + [] == notes;
    } else if m.status.Ready? || m.status.Connecting? {
      RoundsComplete(notes);
    } else {
      CloseARound(notes, !m.status.Disconnected?);
      RoundsComplete(notes + [NoteDisconnected]);
      assert notes + [NoteDisconnected, NoteConnected, NoteOffline] == notes + [NoteDisconnected] + [NoteConnected, NoteOffline];
    }
  }

  lemma StartInv()
    ensures MainInv(START)
  {
  }

  lemma {:induction false} TurnsKeepInv(inputs: seq<Input>)
    ensures MainInv(Turns(START, inputs))
    ensures Turns(START, inputs).panicked <==> exists i :: 0 <= i < |inputs| && FailedJoin(inputs, i)
  {
    hide MainInv, Turn, Rounds, Complete, Attempts;
    if inputs == [] {
      StartInv();
    } else {
      var n := |inputs| - 1;
      var init := inputs[..n];
      TurnsKeepInv(init);
      TurnKeepsInv(Turns(START, init), inputs[n]);
      forall i | 0 <= i < n ensures FailedJoin(inputs, i) <==> FailedJoin(init, i) {
        assert init[..i] == inputs[..i];
      }
      assert Turns(START, inputs).panicked <==> Turns(START, init).panicked || FailedJoin(inputs, n);
      if Turns(START, init).panicked {
        var i :| 0 <= i < n && FailedJoin(init, i);
        assert FailedJoin(inputs, i);
      }
    }
  }

  /**
   * However the outside behaves: the notifications are a prefix of ((Error or Connected) Disconnected)* Connected
   * Offline, and all of it when the loop has ended; the connection counter is the number of attempts, modulo its
   * width; and an `expect` fails exactly when a connection's tasks are joined and one of them has failed. The
   * `expect`s on the channels never fail.
   */
  lemma TurnsInLanguage(inputs: seq<Input>)
    ensures var m := Turns(START, inputs);
            && InLanguage(m.notes) && (m.exited ==> Complete(m.notes))
            && m.connectionCount == Attempts(m.notes) % 0x1_0000_0000
            && (m.panicked <==> exists i :: 0 <= i < |inputs| && FailedJoin(inputs, i))
  {
    hide Turns, Attempts, InLanguage, Complete, FailedJoin;
    TurnsKeepInv(inputs);
    InvInLanguage(Turns(START, inputs));
  }

  /** What subscribers are told, and whether the loop has ended or panicked. */
  datatype Story = Story(notes: seq<Note>, exited: bool, panicked: bool)

  function Prefixed(notes: seq<Note>, s: Story): Story {
    s.(notes := notes + s.notes)
  }

  /**
   * The loop told round by round, without its variables. A round is an attempt at the second turn. A failed one is
   * followed by a disconnection. A connection is waited on at the third turn and its tasks are joined at the fourth;
   * then a close request has ended the loop, and any other wake-up leads to a disconnection and the next round.
   */
  function Told(inputs: seq<Input>): Story
    decreases |inputs|
  {
    if |inputs| < 2 then Story([], false, false)
    else if !inputs[1].connectOk then
      if |inputs| < 3 then Story([NoteError], false, false)
      else Prefixed([NoteError, NoteDisconnected], Told(inputs[3..]))
    else
      if |inputs| < 4 then Story([NoteConnected], false, false)
      else if !inputs[3].joinOk then Story([NoteConnected], false, true)
      else if inputs[2].wake.CloseRequested? then Story([NoteConnected, NoteOffline], true, false)
      else Prefixed([NoteConnected, NoteDisconnected], Told(inputs[4..]))
  }

  lemma {:induction false} TurnsSplit(m: Main, a: seq<Input>, b: seq<Input>)
    ensures Turns(m, a + b) == Turns(Turns(m, a), b)
    decreases |b|
  {
    hide Turn;
    if b == [] {
      assert a + b == a;
    } else {
      assert (a + b)[..|a + b| - 1] == a + b[..|b| - 1];
      TurnsSplit(m, a, b[..|b| - 1]);
    }
  }

  lemma TurnsFirst(m: Main, inputs: seq<Input>)
    requires inputs != []
    ensures Turns(m, inputs) == Turns(Turn(m, inputs[0]), inputs[1..])
  {
    hide Turn;
    assert inputs == [inputs[0]] + inputs[1..] && [inputs[0]][..0] == [];
    TurnsSplit(m, [inputs[0]], inputs[1..]);
    assert Turns(m, [inputs[0]]) == Turn(Turns(m, []), inputs[0]);
  }

  /** Between rounds: nothing is held. */
  predicate Fresh(m: Main) {
    m.status.Ready? && !m.handles && !m.exited && !m.panicked
  }

  lemma {:induction false} RoundsTellStory(m: Main, inputs: seq<Input>)
    requires Fresh(m)
    ensures var t := Turns(m, inputs); Story(t.notes, t.exited, t.panicked) == Prefixed(m.notes, Told(inputs))
    decreases |inputs|
  {
    hide Turns, Told;
    ToldUnfolds(inputs);
    if |inputs| < 2 {
      if inputs != [] { TurnsFirst(m, inputs); NoTurns(Turn(m, inputs[0]), inputs[1..]); } else { NoTurns(m, inputs); }
    } else {
      TurnsFirst(m, inputs);
      TurnsFirst(Turn(m, inputs[0]), inputs[1..]);
      var m2 := Turn(Turn(m, inputs[0]), inputs[1]);
      assert inputs[1..][1..] == inputs[2..];
      if |inputs| == 2 {
        NoTurns(m2, inputs[2..]);
      } else {
        TurnsFirst(m2, inputs[2..]);
        var m3 := Turn(m2, inputs[2]);
        assert inputs[2..][1..] == inputs[3..];
        if m2.status.Disconnected? {
          assert m3.notes == m.notes + [NoteError, NoteDisconnected];
          RoundsTellStory(m3, inputs[3..]);
          assert m.notes + [NoteError, NoteDisconnected] + Told(inputs[3..]).notes
              == m.notes + ([NoteError, NoteDisconnected] + Told(inputs[3..]).notes);
        } else if |inputs| == 3 {
          NoTurns(m3, inputs[3..]);
        } else {
          JoinTellsStory(m, m3, inputs);
        }
      }
    }
  }

  /** The fourth turn of a round with a connection, and what follows. */
  lemma JoinTellsStory(m: Main, m3: Main, inputs: seq<Input>)
    requires Fresh(m) && |inputs| >= 4 && inputs[1].connectOk
    requires m3 == Turn(Turn(Turn(m, inputs[0]), inputs[1]), inputs[2])
    ensures var t := Turns(m3, inputs[3..]); Story(t.notes, t.exited, t.panicked) == Prefixed(m.notes, Told(inputs))
    decreases |inputs|, 0
  {
    hide Turns, Told;
    ToldUnfolds(inputs);
    TurnsFirst(m3, inputs[3..]);
    var m4 := Turn(m3, inputs[3]);
    assert inputs[3..][1..] == inputs[4..];
    if m4.exited || m4.panicked {
      StaysStopped(m4, inputs[4..]);
    } else {
      assert m4.notes == m.notes + [NoteConnected, NoteDisconnected];
      RoundsTellStory(m4, inputs[4..]);
      assert m.notes + [NoteConnected, NoteDisconnected] + Told(inputs[4..]).notes
          == m.notes + ([NoteConnected, NoteDisconnected] + Told(inputs[4..]).notes);
    }
  }

  lemma StaysStopped(m: Main, inputs: seq<Input>)
    requires m.exited || m.panicked
    ensures Turns(m, inputs) == m
  {
    assert inputs[..0] == [];
    StoppedStays(m, inputs, 0);
  }

  lemma NoTurns(m: Main, inputs: seq<Input>)
    requires inputs == []
    ensures Turns(m, inputs) == m
  {
  }

  lemma ToldUnfolds(inputs: seq<Input>)
    ensures |inputs| < 2 ==> Told(inputs) == Story([], false, false)
    ensures |inputs| == 2 && !inputs[1].connectOk ==> Told(inputs) == Story([NoteError], false, false)
    ensures |inputs| >= 3 && !inputs[1].connectOk ==> Told(inputs) == Prefixed([NoteError, NoteDisconnected], Told(inputs[3..]))
    ensures 2 <= |inputs| < 4 && inputs[1].connectOk ==> Told(inputs) == Story([NoteConnected], false, false)
    ensures |inputs| >= 4 && inputs[1].connectOk && !inputs[3].joinOk ==> Told(inputs) == Story([NoteConnected], false, true)
    ensures |inputs| >= 4 && inputs[1].connectOk && inputs[3].joinOk && inputs[2].wake.CloseRequested? ==>
              Told(inputs) == Story([NoteConnected, NoteOffline], true, false)
    ensures |inputs| >= 4 && inputs[1].connectOk && inputs[3].joinOk && !inputs[2].wake.CloseRequested? ==>
              Told(inputs) == Prefixed([NoteConnected, NoteDisconnected], Told(inputs[4..]))
  {
  }

  /** The turns of the loop tell the story of its rounds, for all inputs. */
  lemma TurnsTellStory(inputs: seq<Input>)
    ensures var m := Turns(START, inputs); Story(m.notes, m.exited, m.panicked) == Told(inputs)
  {
    RoundsTellStory(START, inputs);
    assert [] + Told(inputs).notes == Told(inputs).notes;
  }

  /** Turn `i` is a wait on a connection. */
  ghost predicate Waits(inputs: seq<Input>, i: nat) {
    i < |inputs| && Turns(START, inputs[..i]).status.Connected?
  }

  ghost predicate SaysOffline(m: Main) {
    m.status.Offline? || m.exited || NoteOffline in m.notes
  }

  lemma TurnSaysOffline(m: Main, input: Input)
    requires SaysOffline(Turn(m, input)) && !SaysOffline(m)
    ensures m.status.Connected? && input.wake.CloseRequested?
  {
  }

  ghost predicate ClosedWait(inputs: seq<Input>, i: nat) {
    Waits(inputs, i) && inputs[i].wake.CloseRequested?
  }

  /** The loop goes offline, says so, or ends only if a close request ended a wait. */
  lemma {:induction false} OfflineOnlyOnClose(inputs: seq<Input>)
    ensures SaysOffline(Turns(START, inputs)) ==> exists i: nat :: ClosedWait(inputs, i)
  {
    hide SaysOffline, Turn;
    if inputs == [] {
      assert !SaysOffline(START) by { StartIsOnline(); }
    } else if SaysOffline(Turns(START, inputs)) {
      var n := |inputs| - 1;
      var init := inputs[..n];
      OfflineOnlyOnClose(init);
      if SaysOffline(Turns(START, init)) {
        var i: nat :| ClosedWait(init, i);
        assert init[..i] == inputs[..i];
        assert ClosedWait(inputs, i);
      } else {
        TurnSaysOffline(Turns(START, init), inputs[n]);
        assert ClosedWait(inputs, n);
      }
    }
  }

  lemma StartIsOnline()
    ensures !SaysOffline(START)
  {
  }

  /**
   * What follows a wait, once the tasks have been joined: a close request ends the loop with `Offline`; a disconnect
   * signal or a close sender that went away leads to `Disconnected`, and if the inputs go on, to another attempt.
   */
  lemma WaitEnds(inputs: seq<Input>, i: nat)
    requires Waits(inputs, i) && i + 1 < |inputs| && inputs[i + 1].joinOk
    ensures var before, after := Turns(START, inputs[..i]), Turns(START, inputs[..i + 2]);
            if inputs[i].wake.CloseRequested? then after.notes == before.notes + [NoteOffline] && after.exited
            else
              after.notes == before.notes + [NoteDisconnected] && !after.exited && !after.panicked
              && (i + 3 < |inputs| ==>
                    Turns(START, inputs[..i + 4]).notes
                    == before.notes + [NoteDisconnected] + [if inputs[i + 3].connectOk then NoteConnected else NoteError])
  {
    TurnsKeepInv(inputs[..i]);
    assert inputs[..i + 1][..i] == inputs[..i] && inputs[..i + 2][..i + 1] == inputs[..i + 1];
    if i + 3 < |inputs| {
      assert inputs[..i + 3][..i + 2] == inputs[..i + 2] && inputs[..i + 4][..i + 3] == inputs[..i + 3];
    }
  }
}
