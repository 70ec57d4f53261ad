/** The control task of one websocket connection: it keeps the set of tracked scripts and tells the server about changes. */
module Control {
  import opened Types

  datatype Command = Close | Ping | Subscribe(scriptpubkeys: seq<Script>) | Unsubscribe(scriptpubkeys: seq<Script>)

  datatype Message = PingRequest | Track(scriptpubkeys: set<Script>)

  function Members(s: seq<Script>): set<Script> {
    set spk | spk in s
  }

  lemma MembersEmpty()
    ensures Members([]) == {}
  {
  }

  lemma MembersAppend(s: seq<Script>, x: Script)
    ensures Members(s + [x]) == Members(s) + {x}
  {
    assert x in s + [x];
    forall y | y in s ensures y in s + [x] {
    }
  }

  /** The tracked set after a command. */
  function After(active: set<Script>, c: Command): set<Script> {
    match c
    case Subscribe(spks) => active + Members(spks)
    case Unsubscribe(spks) => active - Members(spks)
    case _ => active
  }

  /** The message a command gives rise to, if any. */
  function Reply(active: set<Script>, c: Command): seq<Message> {
    if After(active, c) != active then [Track(After(active, c))] else if c.Ping? then [PingRequest] else []
  }

  function AfterAll(active: set<Script>, cs: seq<Command>): set<Script> {
    if cs == [] then active else After(AfterAll(active, cs[..|cs| - 1]), cs[|cs| - 1])
  }

  lemma {:induction false} AfterAllFirst(active: set<Script>, c: Command, cs: seq<Command>)
    ensures AfterAll(active, [c] + cs) == AfterAll(After(active, c), cs)
  {
    if cs == [] {
      assert [c] + cs == [c] && [c][..0] == [];
      assert AfterAll(active, [c]) == After(AfterAll(active, []), c);
    } else {
      assert ([c] + cs)[..|cs|] == [c] + cs[..|cs| - 1];
      AfterAllFirst(active, c, cs[..|cs| - 1]);
    }
  }

  /** What the server tracks after the messages: the last set it was sent. */
  function Tracked(sent: seq<Message>): set<Script> {
    if sent == [] then {}
    else if sent[|sent| - 1].Track? then sent[|sent| - 1].scriptpubkeys
    else Tracked(sent[..|sent| - 1])
  }

  /** Every tracking message changes what the server tracks. */
  ghost predicate OnlyChanges(sent: seq<Message>) {
    forall i :: 0 <= i < |sent| && sent[i].Track? ==> sent[i].scriptpubkeys != Tracked(sent[..i])
  }

  lemma OnlyChangesExtend(sent: seq<Message>, m: Message)
    requires OnlyChanges(sent) && (m.Track? ==> m.scriptpubkeys != Tracked(sent))
    ensures OnlyChanges(sent + [m])
    ensures Tracked(sent + [m]) == if m.Track? then m.scriptpubkeys else Tracked(sent)
  {
    var s := sent + [m];
    assert s[..|sent|] == sent;
    forall i | 0 <= i < |s| && s[i].Track? ensures s[i].scriptpubkeys != Tracked(s[..i]) {
      if i < |sent| { assert s[..i] == sent[..i]; }
    }
  }

  /** Sending the reply of a command keeps the server's view equal to the tracked set. */
  lemma ReplyKeeps(active: set<Script>, sent: seq<Message>, c: Command)
    requires OnlyChanges(sent) && Tracked(sent) == active
    ensures OnlyChanges(sent + Reply(active, c)) && Tracked(sent + Reply(active, c)) == After(active, c)
  {
    if Reply(active, c) == [] {
      assert sent + [] == sent;
    } else {
      OnlyChangesExtend(sent, Reply(active, c)[0]);
    }
  }

  /** The messages of a series of commands that the socket accepts. */
  function Replies(active: set<Script>, cs: seq<Command>): seq<Message> {
    if cs == [] then []
    else Replies(active, cs[..|cs| - 1]) + Reply(AfterAll(active, cs[..|cs| - 1]), cs[|cs| - 1])
  }

  function PingCommands(cs: seq<Command>): nat {
    if cs == [] then 0 else PingCommands(cs[..|cs| - 1]) + (if cs[|cs| - 1].Ping? then 1 else 0)
  }

  function PingRequests(sent: seq<Message>): nat {
    if sent == [] then 0 else PingRequests(sent[..|sent| - 1]) + (if sent[|sent| - 1].PingRequest? then 1 else 0)
  }

  lemma PingReply(sent: seq<Message>, active: set<Script>, c: Command)
    ensures PingRequests(sent + Reply(active, c)) == PingRequests(sent) + if c.Ping? then 1 else 0
  {
    var reply := Reply(active, c);
    if reply == [] {
      assert sent + reply == sent;
    } else {
      assert (sent + reply)[..|sent|] == sent;
    }
  }

  /**
   * Over any series of accepted commands every ping command reaches the server as one ping request, every other
   * message changes the tracked set, and the server ends with the set the commands ask for.
   */
  lemma {:induction false} SeriesReaches(sent: seq<Message>, active: set<Script>, cs: seq<Command>)
    requires OnlyChanges(sent) && Tracked(sent) == active
    ensures PingRequests(sent + Replies(active, cs)) == PingRequests(sent) + PingCommands(cs)
    ensures OnlyChanges(sent + Replies(active, cs)) && Tracked(sent + Replies(active, cs)) == AfterAll(active, cs)
  {
    hide OnlyChanges, Tracked, Reply, PingRequests, After;
    if cs == [] {
      assert sent + [] == sent;
    } else {
      var init, last := cs[..|cs| - 1], cs[|cs| - 1];
      SeriesReaches(sent, active, init);
      var before, reply := sent + Replies(active, init), Reply(AfterAll(active, init), last);
      ReplyKeeps(AfterAll(active, init), before, last);
      PingReply(before, AfterAll(active, init), last);
      assert sent + Replies(active, cs) == before + reply;
    }
  }

  class Manager {
    var activeSpks: set<Script>

    /** Messages that reached the socket, oldest first. */
    var sent: seq<Message>

    /** False once the loop has been left. */
    var running: bool

    /** The close sender is still held. */
    var closeSender: bool

    /** Close signals and disconnect signals this task has sent. */
    var closeSignals: nat
    var disconnectSignals: nat

    ghost predicate Valid()
      reads this
    {
      && OnlyChanges(sent)
      && (running ==> Tracked(sent) == activeSpks)
      && closeSignals == (if closeSender then 0 else 1)
      && disconnectSignals == (if running then 0 else 1)
    }

    constructor ()
      ensures Valid() && running && activeSpks == {} && sent == []
    {
      activeSpks := {};
      sent := [];
      running := true;
      closeSender := true;
      closeSignals := 0;
      disconnectSignals := 0;
    }

    /** One command; `sendOk` says whether the socket accepts a message. */
    method Handle(command: Command, sendOk: bool)
      requires Valid() && running
      modifies this
      ensures Valid() && activeSpks == After(old(activeSpks), command)
      ensures command.Subscribe? ==> forall spk :: spk in activeSpks <==> spk in old(activeSpks) || spk in command.scriptpubkeys
      ensures command.Unsubscribe? ==> forall spk :: spk in activeSpks <==> spk in old(activeSpks) && spk !in command.scriptpubkeys
      ensures running <==> sendOk || command.Close? || command.Ping? || activeSpks == old(activeSpks)
      ensures sent == if sendOk then old(sent) + Reply(old(activeSpks), command) else old(sent)
      ensures command.Ping? && sendOk ==> sent == old(sent) + [PingRequest]
      ensures command.Close? || !sendOk ==> sent == old(sent)
      ensures (command.Subscribe? || command.Unsubscribe?) && sendOk ==>
                sent == if activeSpks == old(activeSpks) then old(sent) else old(sent) + [Track(activeSpks)]
      ensures closeSender == (old(closeSender) && !command.Close?)
    {
      hide OnlyChanges, Tracked;
      match command {
        case Close =>
          if closeSender {
            closeSender := false;
            closeSignals := closeSignals + 1;
          }
        case Ping =>
          if sendOk {
            OnlyChangesExtend(sent, PingRequest);
            sent := sent + [PingRequest];
          }
        case Subscribe(spks) =>
          var changed := false;
          for i := 0 to |spks|
            invariant activeSpks == old(activeSpks) + Members(spks[..i])
            invariant changed <==> activeSpks != old(activeSpks)
            invariant sent == old(sent) && running && closeSender == old(closeSender)
            invariant closeSignals == old(closeSignals) && disconnectSignals == old(disconnectSignals)
          {
            assert spks[..i + 1] == spks[..i] + [spks[i]];
            changed := changed || spks[i] !in activeSpks;
            activeSpks := activeSpks + {spks[i]};
          }
          assert spks[..|spks|] == spks;
          if changed { UpdateSubscription(sendOk); }
        case Unsubscribe(spks) =>
          var changed := false;
          for i := 0 to |spks|
            invariant activeSpks == old(activeSpks) - Members(spks[..i])
            invariant changed <==> activeSpks != old(activeSpks)
            invariant sent == old(sent) && running && closeSender == old(closeSender)
            invariant closeSignals == old(closeSignals) && disconnectSignals == old(disconnectSignals)
          {
            assert spks[..i + 1] == spks[..i] + [spks[i]];
            changed := changed || spks[i] in activeSpks;
            activeSpks := activeSpks - {spks[i]};
          }
          assert spks[..|spks|] == spks;
          if changed { UpdateSubscription(sendOk); }
      }
    }

    /** Sends the whole tracked set; a failure signals a disconnect and leaves the loop. */
    method UpdateSubscription(sendOk: bool)
      requires OnlyChanges(sent) && activeSpks != Tracked(sent) && running && disconnectSignals == 0
      modifies this`sent, this`running, this`disconnectSignals
      ensures OnlyChanges(sent) && running == sendOk && disconnectSignals == (if running then 0 else 1)
      ensures running ==> Tracked(sent) == activeSpks && sent == old(sent) + [Track(activeSpks)]
      ensures !running ==> sent == old(sent)
    {
      if sendOk {
        OnlyChangesExtend(sent, Track(activeSpks));
        sent := sent + [Track(activeSpks)];
      } else {
        disconnectSignals := disconnectSignals + 1;
        running := false;
      }
    }
  }
}
