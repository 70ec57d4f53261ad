/**
 * Runs of one tracker against a server: events announced by the server, connections that come and go,
 * synchronisations that succeed or fail, and events delivered in order.
 */
module Recovery {
  import opened Types
  import opened TxOrder
  import opened EventLog
  import opened Api
  import opened AddressTracker
  import opened WalletSync
  import opened WalletClient

  /** The server confirms at non-decreasing heights and never touches a confirmed transaction again. */
  ghost predicate ValidEvent(server: TxMap, e: Event) {
    && Proper(e.tx)
    && !(e.tx.txid in server && server[e.tx.txid].status.confirmed)
    && (e.Mempool? ==> !e.tx.status.confirmed)
    && (e.Confirmed? ==>
          e.tx.status.confirmed
          && forall k :: k in server && server[k].status.confirmed
               ==> !OptionLess(e.tx.status.blockHeight, server[k].status.blockHeight))
  }

  ghost predicate ValidLog(log: seq<Event>) {
    forall i :: 0 <= i < |log| ==> ValidEvent(Server(log, i), log[i])
  }

  /** The server's transaction set after `i` events. */
  ghost function Server(log: seq<Event>, i: nat): TxMap
    requires i <= |log|
  {
    At(map[], log, i)
  }

  lemma ServerStep(log: seq<Event>, i: nat)
    requires i < |log|
    ensures Server(log, i + 1) == Apply(Server(log, i), log[i])
  {
    assert log[..i + 1][..i] == log[..i];
  }

  lemma {:induction false} ServerProper(log: seq<Event>, i: nat)
    requires ValidLog(log) && i <= |log|
    ensures ProperMap(Server(log, i))
  {
    if i > 0 {
      ServerProper(log, i - 1);
      ServerStep(log, i - 1);
    }
  }

  ghost predicate ConfirmedIn(m: TxMap, k: Txid) {
    k in m && m[k].status.confirmed
  }

  /** A confirmed transaction stays as it is. */
  lemma {:induction false} ConfirmedStays(log: seq<Event>, i: nat, j: nat, k: Txid)
    requires ValidLog(log) && i <= j <= |log| && ConfirmedIn(Server(log, i), k)
    ensures ConfirmedIn(Server(log, j), k) && Server(log, j)[k] == Server(log, i)[k]
    decreases j
  {
    hide At;
    if i < j {
      ConfirmedStays(log, i, j - 1, k);
      ServerStep(log, j - 1);
    }
  }

  /** A transaction confirmed at `j` was already confirmed at `i`, or was confirmed by an event in between. */
  lemma {:induction false} ConfirmedSince(log: seq<Event>, i: nat, j: nat, k: Txid)
    requires ValidLog(log) && i <= j <= |log| && ConfirmedIn(Server(log, j), k)
    ensures ConfirmedIn(Server(log, i), k)
            || exists e :: i <= e < j && log[e].Confirmed? && log[e].tx == Server(log, j)[k] && log[e].tx.txid == k
    decreases j
  {
    if i < j {
      ServerProper(log, j);
      ServerStep(log, j - 1);
      if log[j - 1].tx.txid == k {
        assert log[j - 1].Confirmed?;
      } else {
        ConfirmedSince(log, i, j - 1, k);
      }
    }
  }

  /** What is confirmed after time `i` lies at or above everything confirmed by then; below that nothing changes. */
  lemma OldBelowNew(log: seq<Event>, i: nat, j: nat, k: Txid, top: Tx)
    requires ValidLog(log) && i <= j <= |log|
    requires ConfirmedIn(Server(log, i), top.txid) && Server(log, i)[top.txid] == top
    requires ConfirmedIn(Server(log, j), k) && HigherConfirmed(top, Server(log, j)[k])
    ensures ConfirmedIn(Server(log, i), k) && Server(log, i)[k] == Server(log, j)[k]
  {
    ServerProper(log, i);
    ServerProper(log, j);
    ConfirmedSince(log, i, j, k);
    if ConfirmedIn(Server(log, i), k) {
      ConfirmedStays(log, i, j, k);
    } else {
      var e :| i <= e < j && log[e].Confirmed? && log[e].tx == Server(log, j)[k];
      ConfirmedStays(log, i, e, top.txid);
      assert false;
    }
  }

  /** Nothing the server does while the client is away makes a recoverable tracker unrecoverable. */
  lemma RecoverableGrows(m: TxMap, log: seq<Event>, i: nat)
    requires ValidLog(log) && i < |log| && ProperMap(m) && Recoverable(m, Server(log, i))
    ensures Recoverable(m, Server(log, i + 1))
  {
    hide ValidLog, At;
    var before, after := Server(log, i), Server(log, i + 1);
    forall k | ConfirmedIn(m, k) ensures k in after && after[k] == m[k] {
      ConfirmedStays(log, i, i + 1, k);
    }
    forall k, top | k in after && after[k].status.confirmed && top in m && HigherConfirmed(m[top], after[k])
      ensures k in m && m[k] == after[k]
    {
      assert before[top] == m[top];
      OldBelowNew(log, i, i + 1, k, m[top]);
    }
  }

  lemma ConfirmedByEvent(log: seq<Event>, e: nat, j: nat)
    requires ValidLog(log) && e < j <= |log| && log[e].Confirmed?
    ensures ConfirmedIn(Server(log, j), log[e].tx.txid) && Server(log, j)[log[e].tx.txid] == log[e].tx
  {
    ServerStep(log, e);
    ConfirmedStays(log, e + 1, j, log[e].tx.txid);
  }

  ghost predicate Among(es: seq<Event>, log: seq<Event>) {
    forall e :: e in es ==> e in log
  }

  /** A confirmed transaction held after any events of the first `n` were applied over an earlier snapshot is the server's. */
  lemma HeldIsServers(log: seq<Event>, es: seq<Event>, at: nat, n: nat, k: Txid)
    requires ValidLog(log) && at <= n <= |log| && Among(es, log[..n])
    requires ConfirmedIn(ApplyAll(Server(log, at), es), k)
    ensures ConfirmedIn(Server(log, n), k) && Server(log, n)[k] == ApplyAll(Server(log, at), es)[k]
  {
    hide ApplyAll, At, LastAbout;
    LastEventDecides(Server(log, at), es, k);
    if LastAbout(es, k).Some? {
      var i :| 0 <= i < n && log[..n][i] == LastAbout(es, k).value;
      assert ValidEvent(Server(log, i), log[i]);
      ConfirmedByEvent(log, i, n);
    } else {
      ConfirmedStays(log, at, n, k);
    }
  }

  /** The confirmation `j` is not the last word of `es` on its transaction, nor part of the snapshot if `es` is silent. */
  ghost predicate Uncovered(log: seq<Event>, es: seq<Event>, at: nat, j: nat)
    requires j < |log|
  {
    match LastAbout(es, log[j].tx.txid)
    case Some(e) => !e.Confirmed?
    case None => j >= at
  }

  lemma HeldIffCovered(log: seq<Event>, es: seq<Event>, at: nat, j: nat)
    requires ValidLog(log) && at <= |log| && j < |log| && log[j].Confirmed? && Among(es, log)
    ensures Lookup(ApplyAll(Server(log, at), es), log[j].tx.txid) == Some(log[j].tx) <==> !Uncovered(log, es, at, j)
  {
    hide ApplyAll, At, LastAbout;
    var k := log[j].tx.txid;
    LastEventDecides(Server(log, at), es, k);
    match LastAbout(es, k) {
      case Some(e) =>
        var i :| 0 <= i < |log| && log[i] == e;
        assert ValidEvent(Server(log, i), e) && ValidEvent(Server(log, j), log[j]);
        if e.Confirmed? {
          ConfirmedByEvent(log, i, |log|);
          ConfirmedByEvent(log, j, |log|);
        }
      case None =>
        if j < at {
          ConfirmedByEvent(log, j, at);
        } else if ConfirmedIn(Server(log, at), k) {
          ConfirmedStays(log, at, j, k);
          assert false;
        }
    }
  }

  /** The tracker holds something confirmed higher than a confirmation it has missed, or has been talked out of. */
  ghost predicate Behind(log: seq<Event>, m: TxMap, es: seq<Event>, at: nat) {
    exists j, top :: 0 <= j < |log| && log[j].Confirmed? && Uncovered(log, es, at, j)
                     && top in m && HigherConfirmed(m[top], log[j].tx)
  }

  /** Whatever events were applied over a snapshot, the tracker is recoverable exactly when it is not behind in this sense. */
  lemma RecoverableIffNotBehind(log: seq<Event>, m: TxMap, es: seq<Event>, at: nat)
    requires ValidLog(log) && at <= |log| && Among(es, log) && m == ApplyAll(Server(log, at), es)
    ensures Recoverable(m, Server(log, |log|)) <==> !Behind(log, m, es, at)
  {
    hide ApplyAll, At, Uncovered, ValidLog;
    var server := Server(log, |log|);
    assert log[..|log|] == log;
    forall j | 0 <= j < |log| && log[j].Confirmed?
      ensures log[j].tx.txid in server && server[log[j].tx.txid] == log[j].tx && server[log[j].tx.txid].status.confirmed
      ensures Lookup(m, log[j].tx.txid) == Some(log[j].tx) <==> !Uncovered(log, es, at, j)
    {
      ConfirmedByEvent(log, j, |log|);
      HeldIffCovered(log, es, at, j);
    }
    forall k | ConfirmedIn(m, k) ensures k in server && server[k] == m[k] {
      HeldIsServers(log, es, at, |log|, k);
    }
    if !Behind(log, m, es, at) {
      forall k, top | k in server && server[k].status.confirmed && top in m && HigherConfirmed(m[top], server[k])
        ensures k in m && m[k] == server[k]
      {
        NothingYet(log);
        ConfirmedSince(log, 0, |log|, k);
        var j :| 0 <= j < |log| && log[j].Confirmed? && log[j].tx == server[k] && log[j].tx.txid == k;
      }
    }
  }

  lemma NothingYet(log: seq<Event>)
    ensures Server(log, 0) == map[]
  {
    assert log[..0] == [];
  }

  /**
   * Replaying events older than the snapshot has put back a transaction that the snapshot had confirmed
   * below the highest height held: it was confirmed by an event not replayed yet.
   */
  ghost predicate Regressed(log: seq<Event>, m: TxMap, from: nat, to: nat, at: nat)
    requires from <= to <= |log| && at <= |log|
  {
    exists e, top :: to <= e < at && log[e].Confirmed? && LastAbout(log[from..to], log[e].tx.txid).Some?
                     && top in m && HigherConfirmed(m[top], log[e].tx)
  }

  /** A confirmation that comes after everything held lies at least as high. */
  lemma LaterIsNotLower(log: seq<Event>, from: nat, to: nat, at: nat, j: nat, top: Txid)
    requires ValidLog(log) && from <= to <= j < |log| && at <= j && log[j].Confirmed?
    requires ConfirmedIn(ApplyAll(Server(log, at), log[from..to]), top)
    ensures !HigherConfirmed(ApplyAll(Server(log, at), log[from..to])[top], log[j].tx)
  {
    assert Among(log[from..to], log[..j]) by {
      forall e | e in log[from..to] ensures e in log[..j] {
        var i :| 0 <= i < to - from && log[from..to][i] == e;
        assert log[..j][from + i] == e;
      }
    }
    HeldIsServers(log, log[from..to], at, j, top);
    assert ValidEvent(Server(log, j), log[j]);
  }

  /** With the subscription in effect before the snapshot, being behind means that the catch-up has put something back. */
  lemma BehindInOrderIff(log: seq<Event>, m: TxMap, from: nat, to: nat, at: nat)
    requires ValidLog(log) && from <= to <= |log| && from <= at <= |log|
    requires m == ApplyAll(Server(log, at), log[from..to])
    ensures Behind(log, m, log[from..to], at) <==> Regressed(log, m, from, to, at)
  {
    hide ApplyAll, At, ValidLog, LastAbout;
    var es := log[from..to];
    forall j, top | 0 <= j < |log| && log[j].Confirmed? && top in m && HigherConfirmed(m[top], log[j].tx)
      ensures Uncovered(log, es, at, j) <==> to <= j < at && LastAbout(es, log[j].tx.txid).Some?
    {
      var k := log[j].tx.txid;
      if from <= j < to { assert es[j - from] == log[j]; }
      if to <= j && at <= j { LaterIsNotLower(log, from, to, at, j, top); }
      if LastAbout(es, k).Some? {
        LastWithin(log, from, to, k);
        if j < to {
          ConfirmedByEvent(log, j, to);
          NotPutBack(log, from, to, k);
        } else {
          NeverTwice(log, es, to, j);
        }
      }
    }
  }

  /** An event of `from..to` that is the last one about its transaction says where the server has it at `to`. */
  lemma LastWithin(log: seq<Event>, from: nat, to: nat, k: Txid)
    requires from <= to <= |log| && LastAbout(log[from..to], k).Some?
    ensures Lookup(Server(log, to), k) == Outcome(LastAbout(log[from..to], k).value)
  {
    SilentBetween(map[], log, from, to, k);
  }

  lemma NotPutBack(log: seq<Event>, from: nat, to: nat, k: Txid)
    requires ValidLog(log) && from <= to <= |log| && LastAbout(log[from..to], k).Some? && ConfirmedIn(Server(log, to), k)
    requires Lookup(Server(log, to), k) == Outcome(LastAbout(log[from..to], k).value)
    ensures LastAbout(log[from..to], k).value.Confirmed?
  {
    var e := LastAbout(log[from..to], k).value;
    var i :| 0 <= i < to - from && log[from..to][i] == e;
    assert ValidEvent(Server(log, from + i), log[from + i]);
  }

  /** A transaction confirmed by event `j` was not confirmed by an event before it. */
  lemma NeverTwice(log: seq<Event>, es: seq<Event>, to: nat, j: nat)
    requires ValidLog(log) && to <= j < |log| && log[j].Confirmed?
    requires LastAbout(es, log[j].tx.txid).Some? && LastAbout(es, log[j].tx.txid).value in log[..to]
    ensures !LastAbout(es, log[j].tx.txid).value.Confirmed?
  {
    var e := LastAbout(es, log[j].tx.txid).value;
    var i :| 0 <= i < to && log[..to][i] == e;
    assert ValidEvent(Server(log, j), log[j]);
    if e.Confirmed? {
      ConfirmedByEvent(log, i, j);
      assert false;
    }
  }

  /**
   * With the subscription in effect before the snapshot, the tracker is recoverable exactly when the replay has put
   * no such transaction back; once it has caught up with the snapshot it always is.
   */
  lemma RecoverableIffNotRegressed(log: seq<Event>, m: TxMap, from: nat, to: nat, at: nat)
    requires ValidLog(log) && from <= to <= |log| && from <= at <= |log|
    requires m == ApplyAll(Server(log, at), log[from..to])
    ensures Recoverable(m, Server(log, |log|)) <==> !Regressed(log, m, from, to, at)
    ensures at <= to ==> Recoverable(m, Server(log, |log|))
  {
    BehindInOrderIff(log, m, from, to, at);
    RecoverableIffNotBehind(log, m, log[from..to], at);
  }

  /** A history that a server with transaction set `server` may return. */
  ghost predicate HistoryOf(h: seq<Tx>, server: TxMap) {
    NewestFirst(h) && MapOf(h) == server
  }

  /**
   * The events of the log that a subscription has delivered: `from` is the time it took effect, or of the last
   * synchronisation that replaced an earlier one.
   */
  datatype Stream = Stream(from: nat, to: nat)

  /** The map a synchronisation made of the history of time `at`, before it drained the queue. */
  datatype Snapshot = Snapshot(base: TxMap, at: nat)

  /**
   * The server's log and the tracker. `stream`: the subscription of the present connection, once it is in effect.
   * `snapshot`: the last synchronisation, until one fails or the connection is lost. `stale`: events of earlier
   * connections, in the queue now or drained by that synchronisation.
   */
  datatype World = World(log: seq<Event>, view: View, connected: bool, stream: Option<Stream>, stale: seq<Event>,
                         snapshot: Option<Snapshot>)

  /** `Subscribed`: the subscription takes effect, some time after the connection was opened. */
  datatype Action = Announce(e: Event) | Connect | Subscribed | Receiving | SyncOk(h: seq<Tx>) | SyncFail | Drop

  const BEGIN := World([], View(map[], [], true), false, None, [], None)

  ghost predicate Enabled(w: World, a: Action) {
    match a
    case Announce(e) => ValidEvent(Server(w.log, |w.log|), e)
    case Connect => !w.connected
    case Subscribed => w.connected && w.stream.None?
    // the wallet handles `Connected`, and so synchronises, before any address event of the connection
    case Receiving => w.stream.Some? && w.stream.value.to < |w.log| && (w.snapshot.Some? || w.view.loading)
    case SyncOk(h) => HistoryOf(h, Server(w.log, |w.log|)) && ProperView(w.view)
    case SyncFail => true
    case Drop => w.connected
  }

  /** The events that were or will be applied over the snapshot. */
  function Overlay(w: World): seq<Event> {
    w.stale + match w.stream
              case Some(s) => if s.from <= s.to <= |w.log| then w.log[s.from..s.to] else []
              case None => []
  }

  /** A synchronised tracker starts anew: what was applied so far is part of its map. */
  function Restarted(w: World): World {
    if w.snapshot.None? then w
    else w.(stale := [], snapshot := None,
            stream := if w.stream.Some? then Some(Stream(w.stream.value.to, w.stream.value.to)) else None)
  }

  ghost function Next(w: World, a: Action): World
    requires Enabled(w, a)
  {
    match a
    case Announce(e) => w.(log := w.log + [e])
    case Connect => w.(connected := true)
    case Subscribed => w.(stream := Some(Stream(|w.log|, |w.log|)))
    case Receiving =>
      var s := w.stream.value;
      w.(view := Receive(w.view, w.log[s.to], true), stream := Some(Stream(s.from, s.to + 1)))
    case SyncOk(h) =>
      Restarted(w).(view := Synced(w.view, h, None), snapshot := Some(Snapshot(SyncedMap(w.view.transactions, h), |w.log|)))
    case SyncFail => Restarted(w).(view := w.view.(loading := true))
    case Drop => w.(connected := false, stream := None, stale := w.view.queue, snapshot := None)
  }

  /** The step of a failed download is what the download does to the tracker when one of its requests fails. */
  lemma SyncFailIsFailedDownload(w: World, h: seq<Tx>, failAt: nat)
    requires ProperView(w.view) && failAt < Requests(h, UntilTxid(w.view.transactions), UntilHeight(w.view.transactions))
    ensures Next(w, SyncFail).view == Synced(w.view, h, Some(failAt))
    ensures Synced(w.view, h, Some(failAt)) == View(w.view.transactions, w.view.queue, true)
  {
  }

  /** Kept by every step: what is queued, and what the map of a synchronised tracker is made of. */
  ghost predicate Inv(w: World) {
    && ValidLog(w.log) && ProperMap(w.view.transactions)
    && (w.stream.Some? ==> w.connected && w.stream.value.from <= w.stream.value.to <= |w.log|)
    && Among(w.stale, w.log)
    && match w.snapshot
       case None => w.view.queue == Overlay(w)
       case Some(s) => s.at <= |w.log| && w.view == View(ApplyAll(s.base, Overlay(w)), [], false)
  }

  lemma LogExtends(log: seq<Event>, e: Event)
    requires ValidLog(log) && ValidEvent(Server(log, |log|), e)
    ensures ValidLog(log + [e])
    ensures forall i :: 0 <= i <= |log| ==> Server(log + [e], i) == Server(log, i)
  {
    forall i | 0 <= i <= |log| ensures Server(log + [e], i) == Server(log, i) {
      assert (log + [e])[..i] == log[..i];
    }
  }

  lemma AnnounceKeeps(w: World, e: Event)
    requires Inv(w) && Enabled(w, Announce(e))
    ensures Inv(Next(w, Announce(e))) && Overlay(Next(w, Announce(e))) == Overlay(w)
  {
    hide ApplyAll, At, ProperMap;
    LogExtends(w.log, e);
    assert forall x :: x in w.log ==> x in w.log + [e];
    if w.stream.Some? {
      var s := w.stream.value;
      assert (w.log + [e])[s.from..s.to] == w.log[s.from..s.to];
    }
  }

  lemma EventProper(log: seq<Event>, e: Event)
    requires ValidLog(log) && e in log
    ensures Proper(e.tx)
  {
    var i :| 0 <= i < |log| && log[i] == e;
    assert ValidEvent(Server(log, i), log[i]);
  }

  lemma OverlayAmong(w: World)
    requires Inv(w)
    ensures Among(Overlay(w), w.log)
  {
  }

  lemma QueueIsProper(w: World)
    requires Inv(w)
    ensures ProperView(w.view)
  {
    hide ValidLog;
    OverlayAmong(w);
    forall e | e in w.view.queue ensures Proper(e.tx) {
      EventProper(w.log, e);
    }
  }

  lemma OverlayGrows(w: World)
    requires Inv(w) && Enabled(w, Receiving)
    ensures Overlay(Next(w, Receiving)) == Overlay(w) + [w.log[w.stream.value.to]]
  {
    hide Inv, ApplyAll;
    assert w.stream.value.from <= w.stream.value.to by { StreamInLog(w); }
    var from, to := w.stream.value.from, w.stream.value.to;
    assert w.log[from..to + 1] == w.log[from..to] + [w.log[to]];
  }

  lemma StreamInLog(w: World)
    requires Inv(w) && w.stream.Some?
    ensures w.stream.value.from <= w.stream.value.to <= |w.log|
  {
  }

  lemma ReceivingKeeps(w: World)
    requires Inv(w) && Enabled(w, Receiving)
    ensures Inv(Next(w, Receiving))
  {
    hide ValidLog, At, Among, Overlay;
    var e := w.log[w.stream.value.to];
    EventProper(w.log, e);
    OverlayGrows(w);
    assert (Overlay(w) + [e])[..|Overlay(w)|] == Overlay(w);
  }

  lemma SyncKeeps(w: World, h: seq<Tx>)
    requires Inv(w) && Enabled(w, SyncOk(h))
    ensures Inv(Next(w, SyncOk(h)))
  {
    hide ValidLog, At, SyncedMap, Among;
    SyncedKeepsProper(w.view, h, None);
    AmongNothing(w.log);
  }

  lemma AmongNothing(log: seq<Event>)
    ensures Among([], log)
  {
  }

  lemma StepKeepsInv(w: World, a: Action)
    requires Inv(w) && Enabled(w, a)
    ensures Inv(Next(w, a))
  {
    match a {
      case Announce(e) => AnnounceKeeps(w, e);
      case Receiving => ReceivingKeeps(w);
      case SyncOk(h) => SyncKeeps(w, h);
      case Drop => OverlayAmong(w);
      case _ =>
    }
  }

  /** The end of a synchronised phase that leaves the tracker recoverable. */
  ghost predicate SafeEnd(w: World, a: Action) {
    w.snapshot.Some? && (a.SyncOk? || a.SyncFail? || a.Drop?) ==>
      !Behind(w.log, w.view.transactions, Overlay(w), w.snapshot.value.at)
  }

  ghost predicate Run(w: World, actions: seq<Action>, safe: bool)
    decreases |actions|
  {
    actions != [] ==>
      && Enabled(w, actions[0])
      && (safe ==> SafeEnd(w, actions[0]))
      && Run(Next(w, actions[0]), actions[1..], safe)
  }

  ghost function Final(w: World, actions: seq<Action>, safe: bool): World
    requires Run(w, actions, safe)
    decreases |actions|
  {
    if actions == [] then w else Final(Next(w, actions[0]), actions[1..], safe)
  }

  lemma {:induction false} RunKeepsInv(w: World, actions: seq<Action>, safe: bool)
    requires Inv(w) && Run(w, actions, safe)
    ensures Inv(Final(w, actions, safe))
    decreases |actions|
  {
    hide Inv, Next, Enabled, SafeEnd;
    if actions != [] {
      StepKeepsInv(w, actions[0]);
      RunKeepsInv(Next(w, actions[0]), actions[1..], safe);
    }
  }

  lemma BeginInv()
    ensures Inv(BEGIN)
  {
  }

  /**
   * Over every run, whatever is lost and whenever: a synchronised tracker holds the server's set at the last event
   * delivered exactly when, for every transaction the subscription has been silent about, the snapshot with the
   * stale queue over it says what the server says. If the synchronisation was complete, nothing stale was queued,
   * and the subscription was in effect before the snapshot, that is so once the stream has caught up with it.
   */
  lemma EveryRunConvergesIff(actions: seq<Action>)
    requires Run(BEGIN, actions, false)
    ensures var w := Final(BEGIN, actions, false);
            w.snapshot.Some? && w.stream.Some? ==>
              var (s, x) := (w.stream.value, w.snapshot.value);
              && s.from <= s.to <= |w.log| && x.at <= |w.log|
              && (w.view.transactions == Server(w.log, s.to)
                  <==> forall k :: LastAbout(w.log[s.from..s.to], k).None?
                         ==> Lookup(ApplyAll(x.base, w.stale), k) == Lookup(Server(w.log, s.to), k))
              && (x.base == Server(w.log, x.at) && w.stale == [] && s.from <= x.at <= s.to
                  ==> w.view.transactions == Server(w.log, s.to))
  {
    hide Run, Final;
    BeginInv();
    RunKeepsInv(BEGIN, actions, false);
    var w := Final(BEGIN, actions, false);
    if w.snapshot.Some? && w.stream.Some? {
      var s, x := w.stream.value, w.snapshot.value;
      ApplyAllConcat(x.base, w.stale, w.log[s.from..s.to]);
      ReplayConvergesIff(map[], w.log, ApplyAll(x.base, w.stale), s.from, s.to);
      if x.base == Server(w.log, x.at) && w.stale == [] && s.from <= x.at <= s.to {
        assert w.stale + w.log[s.from..s.to] == w.log[s.from..s.to];
        SnapshotPlusLog(map[], w.log, s.from, x.at, s.to);
      }
    }
  }

  /** Whatever is held as confirmed is confirmed by the server. */
  ghost predicate ConfirmedByServer(m: TxMap, server: TxMap) {
    forall k :: ConfirmedIn(m, k) ==> ConfirmedIn(server, k) && server[k] == m[k]
  }

  lemma EventTrusted(log: seq<Event>, m: TxMap, e: Event)
    requires ValidLog(log) && e in log && ConfirmedByServer(m, Server(log, |log|))
    ensures ConfirmedByServer(Apply(m, e), Server(log, |log|))
  {
    hide At;
    var i :| 0 <= i < |log| && log[i] == e;
    assert ValidEvent(Server(log, i), e);
    if e.Confirmed? { ConfirmedByEvent(log, i, |log|); }
  }

  lemma {:induction false} EventsTrusted(log: seq<Event>, m: TxMap, es: seq<Event>)
    requires ValidLog(log) && Among(es, log) && ConfirmedByServer(m, Server(log, |log|))
    ensures ConfirmedByServer(ApplyAll(m, es), Server(log, |log|))
  {
    hide ValidLog, ConfirmedByServer, Server, Apply;
    if es != [] {
      var n := |es| - 1;
      EventsTrusted(log, m, es[..n]);
      EventTrusted(log, ApplyAll(m, es[..n]), es[n]);
    }
  }

  lemma SyncedTrusted(m: TxMap, h: seq<Tx>)
    requires ProperMap(m) && NewestFirst(h) && ConfirmedByServer(m, MapOf(h))
    ensures ConfirmedByServer(SyncedMap(m, h), MapOf(h))
  {
    hide Merge, MapOf, NewestConfirmed, FetchedLength;
    forall k | ConfirmedIn(SyncedMap(m, h), k) ensures ConfirmedIn(MapOf(h), k) && MapOf(h)[k] == SyncedMap(m, h)[k] {
      MergeLookup(m, h, |Fetched(m, h)|, k);
    }
  }

  lemma StepKeepsTrust(w: World, a: Action)
    requires Inv(w) && Enabled(w, a) && ConfirmedByServer(w.view.transactions, Server(w.log, |w.log|))
    ensures ConfirmedByServer(Next(w, a).view.transactions, Server(Next(w, a).log, |Next(w, a).log|))
  {
    hide ConfirmedByServer, ValidLog, Server, ApplyAll, SyncedMap;
    match a {
      case Announce(e) => TrustGrows(w.view.transactions, w.log, e);
      case Receiving => if !w.view.loading { EventTrusted(w.log, w.view.transactions, w.log[w.stream.value.to]); }
      case SyncOk(h) =>
        SyncedTrusted(w.view.transactions, h);
        OverlayAmong(w);
        if w.snapshot.Some? { AmongNothing(w.log); }
        EventsTrusted(w.log, SyncedMap(w.view.transactions, h), w.view.queue);
      case _ =>
    }
  }

  lemma TrustGrows(m: TxMap, log: seq<Event>, e: Event)
    requires ValidLog(log) && ValidEvent(Server(log, |log|), e) && ConfirmedByServer(m, Server(log, |log|))
    ensures ConfirmedByServer(m, Server(log + [e], |log| + 1))
  {
    hide At;
    LogExtends(log, e);
    forall k | ConfirmedIn(m, k)
      ensures ConfirmedIn(Server(log + [e], |log| + 1), k) && Server(log + [e], |log| + 1)[k] == m[k]
    {
      ConfirmedStays(log + [e], |log|, |log| + 1, k);
    }
  }

  lemma {:induction false} RunKeepsTrust(w: World, actions: seq<Action>)
    requires Inv(w) && ConfirmedByServer(w.view.transactions, Server(w.log, |w.log|)) && Run(w, actions, false)
    ensures var t := Final(w, actions, false); Inv(t) && ConfirmedByServer(t.view.transactions, Server(t.log, |t.log|))
    decreases |actions|
  {
    hide Inv, Next, Enabled, ConfirmedByServer, Server;
    if actions != [] {
      StepKeepsInv(w, actions[0]);
      StepKeepsTrust(w, actions[0]);
      RunKeepsTrust(Next(w, actions[0]), actions[1..]);
    }
  }

  /** Everything beyond the part of the history that is downloaded is held already. */
  ghost predicate RestHeld(m: TxMap, h: seq<Tx>)
    requires ProperMap(m)
  {
    forall j :: |Fetched(m, h)| <= j < |h| ==> h[j].txid in m && m[h[j].txid] == h[j] && h[j].status.confirmed
  }

  /**
   * Over every run, whatever went wrong before: nothing is held as confirmed that the server does not have, and the
   * next successful synchronisation yields the server's current set exactly when everything it does not download
   * is held already.
   */
  lemma EveryRunSyncsIff(actions: seq<Action>, h: seq<Tx>)
    requires Run(BEGIN, actions, false)
    requires var w := Final(BEGIN, actions, false); HistoryOf(h, Server(w.log, |w.log|))
    ensures var w := Final(BEGIN, actions, false);
            && ProperMap(w.view.transactions) && ConfirmedByServer(w.view.transactions, Server(w.log, |w.log|))
            && (SyncedMap(w.view.transactions, h) == Server(w.log, |w.log|) <==> RestHeld(w.view.transactions, h))
  {
    hide Run, Final, Server, ValidLog, FetchedLength, NewestConfirmed, Merge;
    BeginInv();
    assert ConfirmedByServer(BEGIN.view.transactions, Server(BEGIN.log, 0));
    RunKeepsTrust(BEGIN, actions);
    var m := Final(BEGIN, actions, false).view.transactions;
    assert Fetched(m, h) == h[..|Fetched(m, h)|];
    MergeIsHistoryIff(m, h, |Fetched(m, h)|);
  }

  /** What safe ends keep: a synchronisation yields the server's set, and a tracker without one is recoverable. */
  ghost predicate Sound(w: World) {
    match w.snapshot
    case None => Recoverable(w.view.transactions, Server(w.log, |w.log|))
    case Some(s) => s.at <= |w.log| && s.base == Server(w.log, s.at)
  }

  lemma EndIsRecoverable(w: World, a: Action)
    requires Inv(w) && Sound(w) && SafeEnd(w, a) && (a.SyncOk? || a.SyncFail? || a.Drop?)
    ensures Recoverable(w.view.transactions, Server(w.log, |w.log|))
  {
    hide Recoverable, Behind, ValidLog, Server;
    if w.snapshot.Some? {
      OverlayAmong(w);
      RecoverableIffNotBehind(w.log, w.view.transactions, Overlay(w), w.snapshot.value.at);
    }
  }

  lemma StepKeepsSound(w: World, a: Action)
    requires Inv(w) && Sound(w) && Enabled(w, a) && SafeEnd(w, a)
    ensures Sound(Next(w, a))
  {
    hide Recoverable, Behind, ValidLog, ApplyAll, At, SyncedMap;
    match a {
      case Announce(e) =>
        LogExtends(w.log, e);
        if w.snapshot.None? { RecoverableGrows(w.view.transactions, w.log + [e], |w.log|); }
      case SyncOk(h) =>
        EndIsRecoverable(w, a);
        PartialSyncIsFullSync(w.view.transactions, h);
      case SyncFail => EndIsRecoverable(w, a);
      case Drop => EndIsRecoverable(w, a);
      case _ =>
    }
  }

  lemma {:induction false} RunKeepsSound(w: World, actions: seq<Action>)
    requires Inv(w) && Sound(w) && Run(w, actions, true)
    ensures Sound(Final(w, actions, true))
    decreases |actions|
  {
    hide Inv, Sound, Next, Enabled, SafeEnd;
    if actions != [] {
      StepKeepsInv(w, actions[0]);
      StepKeepsSound(w, actions[0]);
      RunKeepsSound(Next(w, actions[0]), actions[1..]);
    }
  }

  /**
   * Over every run whose synchronised phases end without leaving the tracker behind: every snapshot is the server's
   * set of its time, and whenever the tracker is not synchronised the next successful synchronisation starts from
   * the server's current set, whichever of the server's histories it is given.
   */
  lemma EveryRunRecovers(actions: seq<Action>)
    requires Run(BEGIN, actions, true)
    ensures var w := Final(BEGIN, actions, true);
            && ProperMap(w.view.transactions)
            && (w.snapshot.Some? ==> w.snapshot.value.at <= |w.log| && w.snapshot.value.base == Server(w.log, w.snapshot.value.at))
            && (w.snapshot.None? ==>
                  forall h :: HistoryOf(h, Server(w.log, |w.log|)) ==> SyncedMap(w.view.transactions, h) == Server(w.log, |w.log|))
  {
    hide Recoverable, ValidLog, Run, Final;
    BeginInv();
    assert Sound(BEGIN) by { NothingYet([]); NothingRecoverable(); }
    RunKeepsInv(BEGIN, actions, true);
    RunKeepsSound(BEGIN, actions);
    var w := Final(BEGIN, actions, true);
    if w.snapshot.None? {
      forall h | HistoryOf(h, Server(w.log, |w.log|))
        ensures SyncedMap(w.view.transactions, h) == Server(w.log, |w.log|)
      {
        PartialSyncIsFullSync(w.view.transactions, h);
      }
    }
  }

  lemma NothingRecoverable()
    ensures Recoverable(map[], map[])
  {
  }

  lemma NewEventChangesNothing(m: TxMap, log: seq<Event>, i: nat)
    requires ValidLog(log) && i < |log| && ProperMap(m) && ConfirmedByServer(m, Server(log, i))
    ensures ConfirmedByServer(m, Server(log, i + 1))
    ensures Recoverable(m, Server(log, i + 1)) <==> Recoverable(m, Server(log, i))
  {
    hide At;
    forall k | ConfirmedIn(Server(log, i), k)
      ensures ConfirmedIn(Server(log, i + 1), k) && Server(log, i + 1)[k] == Server(log, i)[k]
    {
      ConfirmedStays(log, i, i + 1, k);
    }
    if Recoverable(m, Server(log, i)) {
      RecoverableGrows(m, log, i);
    }
  }

  /** Until the next successful synchronisation only the server's set changes. */
  lemma {:induction false} UnsyncedRun(w: World, rest: seq<Action>)
    requires Inv(w) && w.snapshot.None? && ConfirmedByServer(w.view.transactions, Server(w.log, |w.log|))
    requires Run(w, rest, false) && forall a :: a in rest ==> !a.SyncOk?
    ensures var t := Final(w, rest, false);
            Recoverable(t.view.transactions, Server(t.log, |t.log|)) <==> Recoverable(w.view.transactions, Server(w.log, |w.log|))
    decreases |rest|
  {
    hide Recoverable, ValidLog, Server, ConfirmedByServer, Inv;
    if rest != [] {
      var a := rest[0];
      StepKeepsInv(w, a);
      var t := Next(w, a);
      assert t.view.transactions == w.view.transactions && t.snapshot.None?;
      if a.Announce? {
        InvParts(t);
        LogExtends(w.log, a.e) by { InvParts(w); }
        NewEventChangesNothing(w.view.transactions, t.log, |w.log|);
      }
      UnsyncedRun(t, rest[1..]);
    }
  }

  lemma InvParts(w: World)
    requires Inv(w)
    ensures ValidLog(w.log) && ProperMap(w.view.transactions)
  {
  }

  /**
   * The guard on ends is exact: after a synchronised phase over a right snapshot ends by a failed synchronisation
   * or a lost connection, and whatever happens until the next successful one, the tracker is recoverable exactly
   * when the end was safe.
   */
  lemma RecoverableIffSafeEnd(w: World, a: Action, rest: seq<Action>)
    requires Inv(w) && Sound(w) && w.snapshot.Some? && Enabled(w, a) && (a.SyncFail? || a.Drop?)
    requires Run(Next(w, a), rest, false) && forall b :: b in rest ==> !b.SyncOk?
    ensures var t := Final(Next(w, a), rest, false);
            Recoverable(t.view.transactions, Server(t.log, |t.log|)) <==> SafeEnd(w, a)
  {
    hide Recoverable, Behind, ValidLog, Server, Run, Final;
    var m, at := w.view.transactions, w.snapshot.value.at;
    OverlayAmong(w);
    RecoverableIffNotBehind(w.log, m, Overlay(w), at);
    StepKeepsInv(w, a);
    assert w.log[..|w.log|] == w.log;
    forall k | ConfirmedIn(m, k) ensures ConfirmedIn(Server(w.log, |w.log|), k) && Server(w.log, |w.log|)[k] == m[k] {
      HeldIsServers(w.log, Overlay(w), at, |w.log|, k);
    }
    UnsyncedRun(Next(w, a), rest);
  }

  /** In every reachable state a synchronisation can succeed: the server has a history to return, and the queue is proper. */
  lemma SyncIsPossible(w: World)
    requires Inv(w)
    ensures exists h :: Enabled(w, SyncOk(h))
  {
    hide ValidLog, At, HistoryOf;
    ServerProper(w.log, |w.log|);
    QueueIsProper(w);
    HistoryExists(Server(w.log, |w.log|));
    var h :| HistoryOf(h, Server(w.log, |w.log|));
    assert Enabled(w, SyncOk(h));
  }

  lemma HistoryExists(server: TxMap)
    requires ProperMap(server)
    ensures exists h :: HistoryOf(h, server)
  {
    var s := StateOf(server);
    MapOfReverse(s);
    ListsMapOf(s, server);
    ReverseIsNewestFirst(s, server);
    assert HistoryOf(Reverse(s), server);
  }

  lemma ReverseIsNewestFirst(s: seq<Tx>, m: TxMap)
    requires ProperMap(m) && IsStateOf(s, m) && DistinctIds(Reverse(s))
    ensures NewestFirst(Reverse(s))
  {
    var h := Reverse(s);
    forall i | 0 <= i < |h| ensures Proper(h[i]) {
      assert m[s[|s| - 1 - i].txid] == h[i];
    }
    forall i, j | 0 <= i < j < |h| && h[i].status.confirmed
      ensures h[j].status.confirmed && h[j].status.blockHeight.value <= h[i].status.blockHeight.value
    {
      assert Precedes(s[|s| - 1 - j], s[|s| - 1 - i]);
      StrictTotalOrder(h[j], h[i], h[i]);
    }
  }
}
