/** Runs that end with everything delivered and synchronised, and a tracker that does not hold the server's set. */
module CatchUpLoss {
  import opened Types
  import opened TxOrder
  import opened EventLog
  import opened Api
  import opened AddressTracker
  import opened WalletSync
  import opened WalletClient
  import opened Recovery

  /** Confirmations of the given transactions, in order. */
  function Confirmations(s: seq<Tx>): seq<Event> {
    seq(|s|, i requires 0 <= i < |s| => Confirmed("a", s[i]))
  }

  lemma {:induction false} ConfirmationsApply(m: TxMap, s: seq<Tx>)
    ensures ApplyAll(m, Confirmations(s)) == m + MapOf(s)
  {
    hide MapOf;
    if s == [] {
      EmptyMapOf(m);
    } else {
      ConfirmationsApply(m, s[..|s| - 1]);
      assert Confirmations(s)[..|s| - 1] == Confirmations(s[..|s| - 1]);
      MergeStep(m, s, |s| - 1);
      assert s[..|s|] == s;
    }
  }

  /** The log of the example: an unconfirmed transaction, fifty confirmations in one block, one in the next. */
  function ExampleLog(): seq<Event> {
    [Mempool("a", STALE)] + Confirmations(Block(50, 7) + [TOP])
  }

  const TOP := Tx(100, [], [], TxStatus(true, Some(8)))
  const STALE := Tx(49, [], [], TxStatus(false, None))

  lemma ExampleServer(i: nat)
    requires 1 <= i <= 52
    ensures Server(ExampleLog(), i) == map[49 := STALE] + MapOf((Block(50, 7) + [TOP])[..i - 1])
  {
    var all := Block(50, 7) + [TOP];
    var first := [Mempool("a", STALE)];
    assert ExampleLog()[..i] == first + Confirmations(all[..i - 1]);
    ApplyAllConcat(map[], first, Confirmations(all[..i - 1]));
    assert first[..0] == [];
    assert ApplyAll(map[], first) == map[49 := STALE];
    ConfirmationsApply(map[49 := STALE], all[..i - 1]);
  }

  lemma ExampleLogValid()
    ensures ValidLog(ExampleLog())
  {
    var all := Block(50, 7) + [TOP];
    var log := ExampleLog();
    assert forall i :: 0 <= i < 50 ==> all[i] == Block(50, 7)[i];
    forall i | 0 <= i < |log| ensures ValidEvent(Server(log, i), log[i]) {
      if i == 0 {
        assert log[..0] == [];
      } else {
        ExampleServer(i);
        ExampleEventValid(i - 1);
        assert log[i] == Confirmed("a", all[i - 1]);
      }
    }
  }

  lemma ExampleEventValid(i: nat)
    requires i < 51
    ensures var all := Block(50, 7) + [TOP];
            ValidEvent(map[49 := STALE] + MapOf(all[..i]), Confirmed("a", all[i]))
  {
    hide MapOf;
    var all := Block(50, 7) + [TOP];
    var m := map[49 := STALE] + MapOf(all[..i]);
    assert forall j :: 0 <= j < 50 ==> all[j] == Block(50, 7)[j];
    forall k | ConfirmedIn(m, k) ensures k != all[i].txid && !OptionLess(all[i].status.blockHeight, m[k].status.blockHeight) {
      assert m[k] in all[..i];
      var j :| 0 <= j < i && all[..i][j] == m[k];
      assert all[j] == m[k];
    }
  }

  ghost predicate Reaches(w: World, actions: seq<Action>, t: World) {
    Run(w, actions, false) && Final(w, actions, false) == t
  }

  lemma {:induction false} ReachThen(w: World, before: seq<Action>, u: World, after: seq<Action>, t: World)
    requires Reaches(w, before, u) && Reaches(u, after, t)
    ensures Reaches(w, before + after, t)
    decreases |before|
  {
    hide Next, Enabled;
    if before == [] {
      assert before + after == after;
    } else {
      assert (before + after)[1..] == before[1..] + after;
      ReachThen(Next(w, before[0]), before[1..], u, after, t);
    }
  }

  lemma ReachStep(w: World, before: seq<Action>, u: World, a: Action)
    requires Reaches(w, before, u) && Enabled(u, a)
    ensures Reaches(w, before + [a], Next(u, a))
  {
    hide Next, Enabled;
    assert [a][1..] == [];
    ReachNothing(Next(u, a));
    assert Reaches(u, [a], Next(u, a));
    ReachThen(w, before, u, [a], Next(u, a));
  }

  lemma ReachNothing(w: World)
    ensures Reaches(w, [], w)
  {
  }

  function Announcements(es: seq<Event>): seq<Action> {
    seq(|es|, i requires 0 <= i < |es| => Announce(es[i]))
  }

  lemma ValidPrefix(log: seq<Event>, e: Event)
    requires ValidLog(log + [e])
    ensures ValidLog(log) && ValidEvent(Server(log, |log|), e)
  {
    forall i | 0 <= i <= |log| ensures Server(log, i) == Server(log + [e], i) {
      assert log[..i] == (log + [e])[..i];
    }
    assert forall i :: 0 <= i < |log| ==> log[i] == (log + [e])[i];
    assert (log + [e])[|log|] == e;
  }

  /** The server can announce the events of any valid log. */
  lemma {:induction false} AnnounceAll(w: World, es: seq<Event>)
    requires ValidLog(w.log + es)
    ensures Reaches(w, Announcements(es), w.(log := w.log + es))
  {
    hide ValidLog, ValidEvent, Server, Run, Final;
    if es == [] {
      assert w.log + es == w.log;
      ReachNothing(w);
    } else {
      var n := |es| - 1;
      var log := w.log + es[..n];
      assert w.log + es == log + [es[n]];
      ValidPrefix(log, es[n]);
      AnnounceAll(w, es[..n]);
      ReachStep(w, Announcements(es[..n]), w.(log := log), Announce(es[n]));
      assert Announcements(es) == Announcements(es[..n]) + [Announce(es[n])];
    }
  }

  /** Connected and subscribed, nothing received yet. */
  function Opened(log: seq<Event>): World {
    World(log, View(map[], [], true), true, Some(Stream(0, 0)), [], None)
  }

  lemma Open()
    ensures Reaches(BEGIN, [Connect, Subscribed], Opened([]))
  {
    hide Run, Final;
    var w1 := Next(BEGIN, Connect);
    ReachNothing(BEGIN);
    ReachStep(BEGIN, [], BEGIN, Connect);
    ReachStep(BEGIN, [] + [Connect], w1, Subscribed);
    assert [] + [Connect] + [Subscribed] == [Connect, Subscribed];
  }

  /** In the middle of the catch-up: the snapshot held everything, its first event has been replayed over it. */
  function CaughtInTheMiddle(log: seq<Event>, server: TxMap, m: TxMap): World {
    World(log, View(m, [], false), true, Some(Stream(0, 1)), [], Some(Snapshot(server, |log|)))
  }

  lemma SyncThenReceive(log: seq<Event>, h: seq<Tx>)
    requires log != [] && HistoryOf(h, Server(log, |log|))
    ensures Reaches(Opened(log), [SyncOk(h), Receiving], CaughtInTheMiddle(log, MapOf(h), Apply(MapOf(h), log[0])))
  {
    hide Run, Final, SyncedMap, MapOf, NewestFirst, Server, Apply;
    var w := Opened(log);
    FirstSyncIsHistory(h) by { NewestIsDistinct(h); }
    ReachNothing(w);
    ReachStep(w, [], w, SyncOk(h));
    var w1 := Next(w, SyncOk(h));
    ReachStep(w, [] + [SyncOk(h)], w1, Receiving);
    assert [] + [SyncOk(h)] + [Receiving] == [SyncOk(h), Receiving];
  }

  lemma NewestIsDistinct(h: seq<Tx>)
    requires NewestFirst(h)
    ensures DistinctIds(h)
  {
  }

  lemma DropThenSync(log: seq<Event>, h: seq<Tx>, m: TxMap)
    requires HistoryOf(h, Server(log, |log|)) && ProperMap(m)
    ensures Reaches(CaughtInTheMiddle(log, MapOf(h), m), [Drop, Connect, Subscribed, SyncOk(h)],
                    World(log, View(SyncedMap(m, h), [], false), true, Some(Stream(|log|, |log|)), [],
                          Some(Snapshot(SyncedMap(m, h), |log|))))
  {
    hide Run, Final, SyncedMap, MapOf, NewestFirst, Server, ProperMap;
    var w := CaughtInTheMiddle(log, MapOf(h), m);
    var w1 := Next(w, Drop);
    var w2 := Next(w1, Connect);
    var w3 := Next(w2, Subscribed);
    ReachNothing(w);
    ReachStep(w, [], w, Drop);
    ReachStep(w, [] + [Drop], w1, Connect);
    ReachStep(w, [] + [Drop] + [Connect], w2, Subscribed);
    ReachStep(w, [] + [Drop] + [Connect] + [Subscribed], w3, SyncOk(h));
    assert [] + [Drop] + [Connect] + [Subscribed] + [SyncOk(h)] == [Drop, Connect, Subscribed, SyncOk(h)];
  }

  /** Everything has been delivered and synchronised, and the tracker does not hold the server's set. */
  ghost predicate SettledWrong(w: World) {
    && w.snapshot.Some? && w.stream.Some? && w.stream.value.to == |w.log|
    && w.view.transactions != Server(w.log, |w.log|)
  }

  /**
   * Losing the connection in the middle of a catch-up can lose a transaction for good. The snapshot held
   * everything; its first, oldest event was replayed over it; and the next synchronisation, which stops after
   * the first full page, drops that transaction.
   */
  lemma DropDuringCatchUpLoses()
    ensures exists h, w, t :: var log := ExampleLog();
              && Reaches(BEGIN, [Connect, Subscribed] + Announcements(log) + [SyncOk(h), Receiving], w)
              && Reaches(w, [Drop, Connect, Subscribed, SyncOk(h)], t)
              && HistoryOf(h, Server(log, |log|)) && t.log == log && SettledWrong(t)
  {
    hide Run, Final, ValidLog, SyncedMap, MapOf, NewestFirst, ProperMap, ExampleLog, Block, Server, Announcements, Apply;
    var log := ExampleLog();
    var h := [TOP] + Block(50, 7);
    ExampleHistory(h);
    LogLength();
    var m := Apply(MapOf(h), log[0]);
    LostByCatchUp(TOP, h, STALE);
    Open();
    ExampleLogValid();
    assert [] + log == log;
    AnnounceAll(Opened([]), log);
    ReachThen(BEGIN, [Connect, Subscribed], Opened([]), Announcements(log), Opened(log));
    SyncThenReceive(log, h);
    var w := CaughtInTheMiddle(log, MapOf(h), m);
    ReachThen(BEGIN, [Connect, Subscribed] + Announcements(log), Opened(log), [SyncOk(h), Receiving], w);
    DropThenSync(log, h, m);
  }

  lemma ExampleHistory(h: seq<Tx>)
    requires h == [TOP] + Block(50, 7)
    ensures HistoryOf(h, Server(ExampleLog(), |ExampleLog()|))
  {
    hide MapOf, NewestFirst, Block, Server, ExampleLog;
    var all := Block(50, 7) + [TOP];
    LogLength();
    ExampleServer(52);
    assert all[..51] == all;
    SameServer(all, h);
    LostByCatchUp(TOP, h, STALE);
  }

  /** A transaction that enters and leaves the mempool. */
  const BRIEF := Tx(1, [], [], TxStatus(false, None))

  lemma BriefServer()
    ensures Server([Mempool("a", BRIEF)], 1) == map[1 := BRIEF]
    ensures Server([Mempool("a", BRIEF), Removed("a", BRIEF)], 2) == map[]
    ensures Server([], 0) == map[]
  {
    var one := [Mempool("a", BRIEF)];
    var log := [Mempool("a", BRIEF), Removed("a", BRIEF)];
    assert log[..2] == log && log[..1] == one && one[..1] == one && one[..0] == [];
    assert ApplyAll(map[], one) == Apply(ApplyAll(map[], []), one[0]);
    assert ApplyAll(map[], log) == Apply(ApplyAll(map[], one), log[1]);
  }

  lemma EmptyHistory()
    ensures HistoryOf([], map[]) && SyncedMap(map[], []) == map[]
  {
    FirstSyncIsHistory([]);
  }

  /**
   * A stale queue that does go wrong: the download fails, a mempool transaction is queued, the connection is lost,
   * and the transaction is dropped while the client is away. After the next download it comes back for good.
   */
  lemma StaleQueueResurrects()
    ensures exists t :: SettledWrong(t) && 1 in t.view.transactions && t.log == [Mempool("a", BRIEF), Removed("a", BRIEF)] &&
              Reaches(BEGIN, [Connect, Subscribed] + [Announce(Mempool("a", BRIEF)), SyncFail, Receiving, Drop]
                             + [Announce(Removed("a", BRIEF)), Connect, Subscribed, SyncOk([])], t)
  {
    hide Run, Final, SyncedMap, MapOf, Server, NewestFirst;
    Open();
    EmptyHistory();
    BriefServer();
    var added, removed := Mempool("a", BRIEF), Removed("a", BRIEF);
    var w := Opened([]);
    assert [] + [added] == [added] && [added] + [removed] == [added, removed];
    var w1 := Next(w, Announce(added));
    var w2 := Next(w1, SyncFail);
    var w3 := Next(w2, Receiving);
    var w4 := Next(w3, Drop);
    assert w4 == World([added], View(map[], [added], true), false, None, [added], None);
    ReachNothing(w);
    ReachStep(w, [], w, Announce(added));
    ReachStep(w, [] + [Announce(added)], w1, SyncFail);
    ReachStep(w, [] + [Announce(added)] + [SyncFail], w2, Receiving);
    ReachStep(w, [] + [Announce(added)] + [SyncFail] + [Receiving], w3, Drop);
    assert [] + [Announce(added)] + [SyncFail] + [Receiving] + [Drop] == [Announce(added), SyncFail, Receiving, Drop];
    ReachThen(BEGIN, [Connect, Subscribed], w, [Announce(added), SyncFail, Receiving, Drop], w4);
    StaleDrained(w4);
    var t :| SettledWrong(t) && 1 in t.view.transactions && t.log == [added, removed]
             && Reaches(w4, [Announce(removed), Connect, Subscribed, SyncOk([])], t);
    ReachThen(BEGIN, [Connect, Subscribed] + [Announce(added), SyncFail, Receiving, Drop], w4,
              [Announce(removed), Connect, Subscribed, SyncOk([])], t);
  }

  lemma StaleDrained(w4: World)
    requires w4 == World([Mempool("a", BRIEF)], View(map[], [Mempool("a", BRIEF)], true), false, None, [Mempool("a", BRIEF)], None)
    ensures exists t :: SettledWrong(t) && 1 in t.view.transactions && t.log == [Mempool("a", BRIEF), Removed("a", BRIEF)] &&
              Reaches(w4, [Announce(Removed("a", BRIEF)), Connect, Subscribed, SyncOk([])], t)
  {
    hide Run, Final, SyncedMap, MapOf, Server, NewestFirst;
    EmptyHistory();
    BriefServer();
    var added, removed := Mempool("a", BRIEF), Removed("a", BRIEF);
    assert [added] + [removed] == [added, removed];
    var w5 := Next(w4, Announce(removed));
    var w6 := Next(w5, Connect);
    var w7 := Next(w6, Subscribed);
    var t := Next(w7, SyncOk([]));
    assert [added][..0] == [];
    assert ApplyAll(map[], [added]) == Apply(ApplyAll(map[], []), added);
    ReachNothing(w4);
    ReachStep(w4, [], w4, Announce(removed));
    ReachStep(w4, [] + [Announce(removed)], w5, Connect);
    ReachStep(w4, [] + [Announce(removed)] + [Connect], w6, Subscribed);
    ReachStep(w4, [] + [Announce(removed)] + [Connect] + [Subscribed], w7, SyncOk([]));
    assert [] + [Announce(removed)] + [Connect] + [Subscribed] + [SyncOk([])] == [Announce(removed), Connect, Subscribed, SyncOk([])];
    assert SettledWrong(t);
  }

  const LOW := Tx(1, [], [], TxStatus(true, Some(10)))
  const HIGH := Tx(2, [], [], TxStatus(true, Some(11)))

  lemma ConfirmationServers()
    ensures Server([Confirmed("a", LOW)], 1) == map[1 := LOW]
    ensures Server([Confirmed("a", LOW), Confirmed("a", HIGH)], 2) == map[1 := LOW, 2 := HIGH]
    ensures Server([], 0) == map[]
  {
    var one := [Confirmed("a", LOW)];
    var log := [Confirmed("a", LOW), Confirmed("a", HIGH)];
    assert log[..2] == log && log[..1] == one && one[..1] == one && one[..0] == [];
    assert ApplyAll(map[], one) == Apply(ApplyAll(map[], []), one[0]);
    assert ApplyAll(map[], log) == Apply(ApplyAll(map[], one), log[1]);
  }

  /**
   * A subscription that takes effect after the snapshot: a confirmation announced in between never arrives, although
   * everything has been delivered; and after a higher confirmation the tracker cannot be relied on to recover.
   */
  lemma LateSubscriptionMisses()
    ensures exists w, t :: SettledWrong(w) && SettledWrong(t) &&
              Reaches(BEGIN, [Connect, SyncOk([]), Announce(Confirmed("a", LOW)), Subscribed], w) &&
              Reaches(w, [Announce(Confirmed("a", HIGH)), Receiving], t) &&
              !Recoverable(t.view.transactions, Server(t.log, |t.log|))
  {
    hide Run, Final, SyncedMap, MapOf, Server, NewestFirst;
    EmptyHistory();
    ConfirmationServers();
    var low, high := Confirmed("a", LOW), Confirmed("a", HIGH);
    assert [] + [low] == [low] && [low] + [high] == [low, high];
    var w1 := Next(BEGIN, Connect);
    var w2 := Next(w1, SyncOk([]));
    var w3 := Next(w2, Announce(low));
    var w := Next(w3, Subscribed);
    ReachNothing(BEGIN);
    ReachStep(BEGIN, [], BEGIN, Connect);
    ReachStep(BEGIN, [] + [Connect], w1, SyncOk([]));
    ReachStep(BEGIN, [] + [Connect] + [SyncOk([])], w2, Announce(low));
    ReachStep(BEGIN, [] + [Connect] + [SyncOk([])] + [Announce(low)], w3, Subscribed);
    assert [] + [Connect] + [SyncOk([])] + [Announce(low)] + [Subscribed] == [Connect, SyncOk([]), Announce(low), Subscribed];
    assert w == World([low], View(map[], [], false), true, Some(Stream(1, 1)), [], Some(Snapshot(map[], 0)));
    var w5 := Next(w, Announce(high));
    var t := Next(w5, Receiving);
    ReachNothing(w);
    ReachStep(w, [], w, Announce(high));
    ReachStep(w, [] + [Announce(high)], w5, Receiving);
    assert [] + [Announce(high)] + [Receiving] == [Announce(high), Receiving];
    assert t.view.transactions == map[2 := HIGH];
    assert t.log == [low, high];
    assert 1 !in t.view.transactions && 1 in Server(t.log, 2);
    assert SettledWrong(w) && SettledWrong(t);
    assert HigherConfirmed(t.view.transactions[2], Server(t.log, |t.log|)[1]);
  }

  lemma LogLength()
    ensures |ExampleLog()| == 52 && ExampleLog()[0] == Mempool("a", STALE)
  {
  }

  lemma SameServer(all: seq<Tx>, h: seq<Tx>)
    requires all == Block(50, 7) + [TOP] && h == [TOP] + Block(50, 7)
    ensures map[49 := STALE] + MapOf(all) == MapOf(h)
  {
    hide MapOf, Block;
    var a := Block(50, 7);
    assert all[49] == a[49];
    assert DistinctIds(h) by {
      assert forall i :: 1 <= i < |h| ==> h[i] == a[i - 1];
    }
    SwapEnds(a, TOP);
    assert all[49] in all;
    assert map[49 := STALE] + MapOf(all) == MapOf(all);
  }

  lemma SwapEnds(a: seq<Tx>, x: Tx)
    requires DistinctIds([x] + a)
    ensures MapOf(a + [x]) == MapOf([x] + a)
  {
    hide MapOf;
    var s, r := a + [x], [x] + a;
    MapOfLists(r);
    forall i, j | 0 <= i < j < |s| ensures s[i].txid != s[j].txid {
      assert s[i] == r[i + 1] && s[j] == r[if j < |a| then j + 1 else 0];
    }
    forall i | 0 <= i < |s| ensures s[i] in r {
    }
    assert forall tx :: tx in r ==> tx in s;
    ListsMapOf(s, MapOf(r));
  }

  lemma LostByCatchUp(top: Tx, h: seq<Tx>, stale: Tx)
    requires top == Tx(100, [], [], TxStatus(true, Some(8))) && stale == Tx(49, [], [], TxStatus(false, None))
    requires h == [top] + Block(50, 7)
    ensures var m := Apply(MapOf(h), Mempool("a", stale));
            && NewestFirst(h) && ProperMap(m) && !Recoverable(m, MapOf(h))
            && SyncedMap(m, h) != MapOf(h)
  {
    var m := Apply(MapOf(h), Mempool("a", stale));
    CatchUpFacts(top, h, stale);
    hide Merge, NewestConfirmed, Recoverable, MapOf, Apply, NewestFirst, ProperMap, StopsAt, FetchedLength;
    if SyncedMap(m, h) == MapOf(h) {
      assert Fetched(m, h) == h[..|Fetched(m, h)|];
      MergeIsHistoryIff(m, h, |Fetched(m, h)|);
      assert false;
    }
    if Recoverable(m, MapOf(h)) {
      PartialSyncIsFullSync(m, h);
      assert false;
    }
  }

  lemma CatchUpFacts(top: Tx, h: seq<Tx>, stale: Tx)
    requires top == Tx(100, [], [], TxStatus(true, Some(8))) && stale == Tx(49, [], [], TxStatus(false, None))
    requires h == [top] + Block(50, 7)
    ensures var m := Apply(MapOf(h), Mempool("a", stale));
            && NewestFirst(h) && ProperMap(m) && |Fetched(m, h)| <= 50
            && |h| == 51 && h[50].txid == 49 && m[49] == stale && h[50] != stale
  {
    hide MapOf, NewestConfirmed, FetchedLength, StopsAt, HigherConfirmed;
    var m := Apply(MapOf(h), Mempool("a", stale));
    CatchUpMap(top, h, stale);
    HighestIsTop(m, top);
    CatchUpStops(top, h);
  }

  lemma CatchUpMap(top: Tx, h: seq<Tx>, stale: Tx)
    requires top == Tx(100, [], [], TxStatus(true, Some(8))) && stale == Tx(49, [], [], TxStatus(false, None))
    requires h == [top] + Block(50, 7)
    ensures var m := Apply(MapOf(h), Mempool("a", stale));
            && NewestFirst(h) && ProperMap(m)
            && 100 in m && m[100] == top && h[50].txid == 49 && m[49] == stale && h[50] != stale
            && forall k :: k in m && k != top.txid ==> !m[k].status.confirmed || HigherConfirmed(top, m[k])
  {
    hide MapOf;
    assert forall i :: 1 <= i < |h| ==> h[i] == Block(50, 7)[i - 1];
    MapOfDistinct(h);
    assert h[0] == top && h[50].txid == 49;
  }

  lemma CatchUpStops(top: Tx, h: seq<Tx>)
    requires top == Tx(100, [], [], TxStatus(true, Some(8))) && h == [top] + Block(50, 7)
    ensures StopsAt(h, 50, Some(100), Some(8))
  {
    assert h[..50][0] == top;
    assert h[49] == Block(50, 7)[48] && Below(h[49], Some(8)) && (49 + 1) % PAGE == 0;
  }

  lemma HighestIsTop(m: TxMap, top: Tx)
    requires ProperMap(m) && top.txid in m && m[top.txid] == top && top.status.confirmed
    requires forall k :: k in m && k != top.txid ==> !m[k].status.confirmed || HigherConfirmed(top, m[k])
    ensures NewestConfirmed(m) == Some(top)
  {
    hide NewestConfirmed;
    NewestIsHighest(m);
  }
}
