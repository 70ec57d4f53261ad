/** The wallet: one tracker per watched script, fed by websocket events and repaired from the server's history. */
module WalletClient {
  import opened Types
  import opened TxOrder
  import opened EventLog
  import opened Api
  import opened AddressTracker
  import opened WalletSync
  import Control

  type Views = map<Script, View>

  /** One websocket event at the wallet: it reaches the tracker of its script, if there is one. */
  function Deliver(v: Views, e: Event, realtime: bool): Views {
    if e.scriptpubkey in v then v[e.scriptpubkey := Receive(v[e.scriptpubkey], e, realtime)] else v
  }

  /** The view a synchronisation leaves behind. */
  ghost function Synced(v: View, h: seq<Tx>, failAt: Option<nat>): View
    requires ProperView(v)
  {
    if failAt.Some? && failAt.value < Requests(h, UntilTxid(v.transactions), UntilHeight(v.transactions))
    then v.(loading := true)
    else View(ApplyAll(SyncedMap(v.transactions, h), v.queue), [], false)
  }

  /** All transactions a view holds or has queued are properly stated. */
  ghost predicate ProperView(v: View) {
    ProperMap(v.transactions) && forall e :: e in v.queue ==> Proper(e.tx)
  }

  lemma ReceiveKeepsProper(v: View, e: Event, realtime: bool)
    requires ProperView(v) && Proper(e.tx)
    ensures ProperView(Receive(v, e, realtime))
  {
  }

  lemma SyncedKeepsProper(v: View, h: seq<Tx>, failAt: Option<nat>)
    requires ProperView(v) && AllProper(h)
    ensures ProperView(Synced(v, h, failAt))
  {
    var f := Fetched(v.transactions, h);
    forall k | k in MapOf(f) ensures Proper(MapOf(f)[k]) {
      assert MapOf(f)[k] in h;
    }
    ApplyAllKeepsProper(SyncedMap(v.transactions, h), v.queue);
  }

  lemma MapOfReverse(s: seq<Tx>)
    requires DistinctIds(s)
    ensures MapOf(Reverse(s)) == MapOf(s) && DistinctIds(Reverse(s))
  {
    var r := Reverse(s);
    MapOfLists(s);
    assert Lists(r, MapOf(s)) by {
      forall tx | tx in s ensures tx in r {
        var i :| 0 <= i < |s| && s[i] == tx;
        assert r[|s| - 1 - i] == tx;
      }
    }
    ListsMapOf(r, MapOf(s));
  }

  lemma NewestOfState(m: TxMap, txs: seq<Tx>)
    requires ProperMap(m) && IsStateOf(txs, m)
    ensures NewestConfirmed(m) == LastConfirmedIn(txs)
  {
    hide LastConfirmedIn;
    StateUnique(m, txs, StateOf(m));
  }

  /** The fetch limits computed by scanning the state list from its end. */
  method FindLimits(txs: seq<Tx>, ghost m: TxMap) returns (untilTxid: Option<Txid>, untilHeight: Option<U32>)
    requires ProperMap(m) && IsStateOf(txs, m)
    ensures untilTxid == UntilTxid(m) && untilHeight == UntilHeight(m)
    // the greatest confirmed height held and the greatest id of that block, or neither if nothing held is confirmed
    ensures untilTxid.None? <==> forall k :: k in m ==> !m[k].status.confirmed
    ensures untilTxid.None? ==> untilHeight.None?
    ensures untilTxid.Some? ==>
              untilTxid.value in m && m[untilTxid.value].status == TxStatus(true, untilHeight)
              && forall k :: k in m && m[k].status.confirmed ==>
                   !OptionLess(untilHeight, m[k].status.blockHeight)
                   && (m[k].status.blockHeight == untilHeight ==> k <= untilTxid.value)
  {
    hide IsStateOf, NewestConfirmed;
    NewestIsHighest(m);
    NewestOfState(m, txs);
    var i := |txs|;
    assert txs[..i] == txs;
    while i > 0 && !txs[i - 1].status.confirmed
      invariant 0 <= i <= |txs| && LastConfirmedIn(txs) == LastConfirmedIn(txs[..i])
    {
      assert txs[..i][..i - 1] == txs[..i - 1];
      i := i - 1;
    }
    if i > 0 {
      assert txs[..i][i - 1] == txs[i - 1];
      return Some(txs[i - 1].txid), txs[i - 1].status.blockHeight;
    }
    return None, None;
  }

  lemma MergeStep(base: TxMap, txs: seq<Tx>, i: nat)
    requires i < |txs|
    ensures base + MapOf(txs[..i + 1]) == (base + MapOf(txs[..i]))[txs[i].txid := txs[i]]
  {
    assert txs[..i + 1][..i] == txs[..i];
  }

  /** A fetched transaction is announced under the kind of its status. */
  function Arrivals(spk: Script, txs: seq<Tx>): seq<Event> {
    seq(|txs|, i requires 0 <= i < |txs| => if txs[i].status.confirmed then Confirmed(spk, txs[i]) else Mempool(spk, txs[i]))
  }

  /** A transaction that was not fetched is withdrawn, and announced as confirmed. */
  function Withdrawals(spk: Script, txs: seq<Tx>): seq<Event> {
    seq(|txs|, i requires 0 <= i < |txs| => Confirmed(spk, txs[i]))
  }

  /** Adding the fetched transactions one event at a time. */
  method MergeFetched(tracker: Tracker, txs: seq<Tx>)
    requires tracker.Valid()
    modifies tracker
    ensures tracker.Valid()
    ensures tracker.Model() == old(tracker.Model()).(transactions := old(tracker.transactions) + MapOf(txs))
    ensures tracker.announced == old(tracker.announced) + Arrivals(tracker.scriptpubkey, txs)
    ensures |tracker.announced| == |old(tracker.announced)| + |txs|
    ensures forall i :: 0 <= i < |txs| && txs[i].status.confirmed ==>
              tracker.announced[|old(tracker.announced)| + i] == Confirmed(tracker.scriptpubkey, txs[i])
    ensures forall i :: 0 <= i < |txs| && !txs[i].status.confirmed ==>
              tracker.announced[|old(tracker.announced)| + i] == Mempool(tracker.scriptpubkey, txs[i])
  {
    hide Tracker.Valid, MapOf;
    ghost var base := tracker.transactions;
    EmptyMapOf(base);
    assert txs[..0] == [];
    for i := 0 to |txs|
      invariant tracker.Valid()
      invariant tracker.queue == old(tracker.queue) && tracker.loading == old(tracker.loading)
      invariant tracker.transactions == base + MapOf(txs[..i])
      invariant tracker.announced == old(tracker.announced) + Arrivals(tracker.scriptpubkey, txs[..i])
    {
      MergeStep(base, txs, i);
      ArrivalsStep(tracker.scriptpubkey, txs, i);
      if txs[i].status.confirmed {
        tracker.ProcessEvent(Confirmed(tracker.scriptpubkey, txs[i]), false);
      } else {
        tracker.ProcessEvent(Mempool(tracker.scriptpubkey, txs[i]), false);
      }
    }
    assert txs[..|txs|] == txs;
  }

  lemma ArrivalsStep(spk: Script, txs: seq<Tx>, i: nat)
    requires i < |txs|
    ensures Arrivals(spk, txs[..i + 1]) ==
            Arrivals(spk, txs[..i]) + [if txs[i].status.confirmed then Confirmed(spk, txs[i]) else Mempool(spk, txs[i])]
  {
  }

  lemma EmptyMapOf(base: TxMap)
    ensures base + MapOf([]) == base
  {
  }

  /** The part of a map that a synchronisation drops. */
  ghost function Unfetched(m: TxMap, fetched: set<Txid>): set<Txid> {
    set k | k in m && !m[k].status.confirmed && k !in fetched
  }

  /**
   * The reverse walk over the initial state: it removes what was not fetched, and goes on while
   * transactions are unconfirmed, or nothing confirmed was held, or the height lies above the last one.
   */
  method RemoveUnfetched(tracker: Tracker, txs: seq<Tx>, fetchedTxids: set<Txid>, lastHeight: Option<U32>)
    returns (ghost gone: seq<Tx>)
    requires tracker.Valid() && ProperMap(tracker.transactions) && IsStateOf(txs, tracker.transactions)
    requires lastHeight == UntilHeight(tracker.transactions)
    modifies tracker
    ensures tracker.Valid()
    ensures tracker.Model() == old(tracker.Model()).(transactions :=
              old(tracker.transactions) - Unfetched(old(tracker.transactions), fetchedTxids))
    ensures AreUnfetched(gone, old(tracker.transactions), fetchedTxids)
    ensures tracker.announced == old(tracker.announced) + Withdrawals(tracker.scriptpubkey, gone)
  {
    hide Tracker.Valid, IsStateOf, UntilHeight, Gone, Unfetched, ProperMap, OptionLess, AreUnfetched;
    ghost var m := tracker.transactions;
    var i := |txs|;
    gone := [];
    NoneGone(m, txs, fetchedTxids);
    while i > 0 && (!txs[i - 1].status.confirmed || lastHeight.None? || OptionLess(lastHeight, txs[i - 1].status.blockHeight))
      invariant 0 <= i <= |txs|
      invariant tracker.Valid()
      invariant tracker.queue == old(tracker.queue) && tracker.loading == old(tracker.loading)
      invariant tracker.transactions == m - Gone(txs, i, fetchedTxids)
      invariant gone == Withdrawn(txs, i, fetchedTxids)
      invariant tracker.announced == old(tracker.announced) + Withdrawals(tracker.scriptpubkey, gone)
      invariant forall j :: i <= j < |txs| ==> !txs[j].status.confirmed
    {
      WalkSeesUnconfirmed(m, txs, i - 1);
      GoneStep(m, txs, i - 1, fetchedTxids);
      if txs[i - 1].txid !in fetchedTxids {
        tracker.ProcessEvent(Removed(tracker.scriptpubkey, txs[i - 1]), false);
        gone := gone + [txs[i - 1]];
      }
      i := i - 1;
    }
    GoneIsUnfetched(m, txs, i, fetchedTxids);
    WithdrawnIsGone(m, txs, i, fetchedTxids);
  }

  /** The transactions of a map that a synchronisation drops, each once. */
  ghost predicate AreUnfetched(gone: seq<Tx>, m: TxMap, fetched: set<Txid>) {
    && DistinctIds(gone)
    && forall tx :: tx in gone <==> tx.txid in Unfetched(m, fetched) && m[tx.txid] == tx
  }

  /** What the walk has removed when it stands at position `i`. */
  ghost function Withdrawn(txs: seq<Tx>, i: nat, fetched: set<Txid>): seq<Tx>
    requires i <= |txs|
    decreases |txs| - i
  {
    if i == |txs| then []
    else Withdrawn(txs, i + 1, fetched) + if txs[i].txid in fetched then [] else [txs[i]]
  }

  lemma {:induction false} WithdrawnMembers(txs: seq<Tx>, i: nat, fetched: set<Txid>)
    requires i <= |txs| && DistinctIds(txs)
    ensures DistinctIds(Withdrawn(txs, i, fetched))
    ensures forall tx :: tx in Withdrawn(txs, i, fetched) <==> tx in txs[i..] && tx.txid !in fetched
    decreases |txs| - i
  {
    if i < |txs| {
      WithdrawnMembers(txs, i + 1, fetched);
      assert txs[i..] == [txs[i]] + txs[i + 1..];
      forall tx | tx in txs[i + 1..] ensures tx.txid != txs[i].txid {
      }
      var rest := Withdrawn(txs, i + 1, fetched);
      assert forall j :: 0 <= j < |rest| ==> rest[j] in rest;
    }
  }

  lemma WithdrawnIsGone(m: TxMap, txs: seq<Tx>, i: nat, fetched: set<Txid>)
    requires IsStateOf(txs, m) && i <= |txs| && Gone(txs, i, fetched) == Unfetched(m, fetched)
    ensures AreUnfetched(Withdrawn(txs, i, fetched), m, fetched)
  {
    hide Withdrawn;
    WithdrawnMembers(txs, i, fetched);
    forall tx ensures tx in txs[i..] && tx.txid !in fetched <==> tx.txid in Unfetched(m, fetched) && m[tx.txid] == tx {
      if tx in txs[i..] && tx.txid !in fetched {
        assert tx.txid in Gone(txs, i, fetched) && tx in txs;
      }
      if tx.txid in Unfetched(m, fetched) && m[tx.txid] == tx {
        var x :| x in txs[i..] && x.txid !in fetched && x.txid == tx.txid;
        assert x in txs;
      }
    }
  }

  /** The third condition of the walk never selects a confirmed transaction: the last height is already the greatest. */
  lemma WalkSeesUnconfirmed(m: TxMap, txs: seq<Tx>, i: nat)
    requires ProperMap(m) && IsStateOf(txs, m) && i < |txs|
    ensures txs[i].status.confirmed ==> UntilHeight(m).Some? && !OptionLess(UntilHeight(m), txs[i].status.blockHeight)
  {
    hide NewestConfirmed;
    NewestIsHighest(m);
    assert m[txs[i].txid] == txs[i];
  }

  /** Ids of the transactions from position `i` on that were not fetched. */
  ghost function Gone(txs: seq<Tx>, i: nat, fetched: set<Txid>): set<Txid>
    requires i <= |txs|
  {
    set tx | tx in txs[i..] && tx.txid !in fetched :: tx.txid
  }

  lemma NoneGone(m: TxMap, txs: seq<Tx>, fetched: set<Txid>)
    ensures m - Gone(txs, |txs|, fetched) == m
  {
  }

  lemma GoneStep(m: TxMap, txs: seq<Tx>, i: nat, fetched: set<Txid>)
    requires i < |txs|
    ensures m - Gone(txs, i, fetched) ==
            if txs[i].txid in fetched then m - Gone(txs, i + 1, fetched) else m - Gone(txs, i + 1, fetched) - {txs[i].txid}
  {
    assert txs[i..] == [txs[i]] + txs[i + 1..];
    assert Gone(txs, i, fetched) == Gone(txs, i + 1, fetched) + (if txs[i].txid in fetched then {} else {txs[i].txid});
  }

  lemma GoneIsUnfetched(m: TxMap, txs: seq<Tx>, i: nat, fetched: set<Txid>)
    requires ProperMap(m) && IsStateOf(txs, m) && i <= |txs|
    requires forall j :: i <= j < |txs| ==> !txs[j].status.confirmed
    requires i > 0 ==> txs[i - 1].status.confirmed
    ensures Gone(txs, i, fetched) == Unfetched(m, fetched)
  {
    forall k | k in m && !m[k].status.confirmed && k !in fetched ensures k in Gone(txs, i, fetched) {
      var j :| 0 <= j < |txs| && txs[j] == m[k];
      if j < i - 1 {
        assert Precedes(txs[j], txs[i - 1]) && m[txs[i - 1].txid] == txs[i - 1];
        StrictTotalOrder(txs[j], txs[i - 1], txs[i - 1]);
      }
      assert txs[i..][j - i] == txs[j];
    }
    forall k | k in Gone(txs, i, fetched) ensures k in m && !m[k].status.confirmed {
      var tx :| tx in txs[i..] && tx.txid == k;
      var j :| 0 <= j < |txs[i..]| && txs[i..][j] == tx;
      assert txs[i + j] == tx;
    }
  }

  /** A state is the present one of a tracker. */
  ghost predicate Reports(state: State, tracker: Tracker)
    reads tracker
  {
    && state.scriptpubkey == tracker.scriptpubkey
    && IsStateOf(state.transactions, tracker.transactions)
    && state.balance == tracker.balance
  }

  /** One address synchronised against the server's history `h`, fixed during the download. */
  method SyncAddressHistory(tracker: Tracker, h: seq<Tx>, failAt: Option<nat>) returns (r: Result<State>, ghost gone: seq<Tx>)
    requires tracker.Valid() && ProperView(tracker.Model()) && DistinctIds(h) && AllProper(h)
    modifies tracker
    ensures tracker.Valid() && tracker.Model() == Synced(old(tracker.Model()), h, failAt)
    ensures ProperView(tracker.Model())
    // nothing but the flag changes when a request fails
    ensures r.Err? ==> tracker.transactions == old(tracker.transactions) && tracker.queue == old(tracker.queue)
    ensures r.Err? ==> tracker.balance == old(tracker.balance) && tracker.overflowed == old(tracker.overflowed) && tracker.loading
    ensures r.Err? ==> tracker.announced == old(tracker.announced)
    // announced: what was dropped, then what was fetched, oldest first, then the queue
    ensures r.Ok? ==> AreUnfetched(gone, old(tracker.transactions), Ids(Fetched(old(tracker.transactions), h)))
    ensures r.Ok? ==> tracker.announced == old(tracker.announced) + SyncAnnouncements(old(tracker.Model()), h, gone, tracker.scriptpubkey)
    ensures r.Ok? ==> tracker.transactions == ApplyAll(SyncedMap(old(tracker.transactions), h), old(tracker.queue))
    ensures r.Ok? ==> tracker.queue == [] && !tracker.loading
    ensures r.Err? <==> failAt.Some? && failAt.value < Requests(h, UntilTxid(old(tracker.transactions)), UntilHeight(old(tracker.transactions)))
    ensures r.Ok? ==> Reports(r.value, tracker)
  {
    hide Tracker.Valid, IsStateOf, FetchedLength, Requests, Reverse, UntilTxid, UntilHeight, ApplyAll, MapOf, ProperMap, DistinctIds, AllProper;
    hide Withdrawals, Arrivals, Announcements, AreUnfetched, Chronological;
    ghost var before := tracker.Model();
    ghost var m := tracker.transactions;
    tracker.SetLoading(true);
    var initial := tracker.GetState();
    var untilTxid, untilHeight := FindLimits(initial.transactions, m);
    var fetched, requests := FetchAddressHistory(h, untilTxid, untilHeight, failAt);
    if fetched.Err? {
      return Err, [];
    }
    gone := Repair(tracker, initial.transactions, fetched.value, untilHeight, h);
    SyncedKeepsProper(before, h, failAt);
    var state := tracker.GetState();
    r := Ok(state);
  }

  /** The callers of a synchronisation drop its result. */
  method SyncIgnoringFailure(tracker: Tracker, h: seq<Tx>, failAt: Option<nat>)
    requires tracker.Valid() && ProperView(tracker.Model()) && DistinctIds(h) && AllProper(h)
    modifies tracker
    ensures tracker.Valid() && tracker.Model() == Synced(old(tracker.Model()), h, failAt) && ProperView(tracker.Model())
  {
    var _, _ := SyncAddressHistory(tracker, h, failAt);
  }

  /** The part after the download: drop what was not fetched, add what was, drain the queue. */
  method Repair(tracker: Tracker, initial: seq<Tx>, txs: seq<Tx>, untilHeight: Option<U32>, ghost h: seq<Tx>)
    returns (ghost gone: seq<Tx>)
    requires tracker.Valid() && tracker.loading && ProperMap(tracker.transactions) && DistinctIds(h)
    requires IsStateOf(initial, tracker.transactions) && untilHeight == UntilHeight(tracker.transactions)
    requires txs == Reverse(Fetched(tracker.transactions, h))
    modifies tracker
    ensures tracker.Valid()
    ensures tracker.Model() == View(ApplyAll(SyncedMap(old(tracker.transactions), h), old(tracker.queue)), [], false)
    ensures AreUnfetched(gone, old(tracker.transactions), Ids(Fetched(old(tracker.transactions), h)))
    ensures tracker.announced == old(tracker.announced) + SyncAnnouncements(old(tracker.Model()), h, gone, tracker.scriptpubkey)
  {
    hide Tracker.Valid, IsStateOf, FetchedLength, Reverse, UntilTxid, UntilHeight, ApplyAll, MapOf, ProperMap, DistinctIds;
    hide Withdrawals, Arrivals, Announcements, AreUnfetched, Merge, Unfetched, SyncedMap, Fetched, Ids;
    ghost var m := tracker.transactions;
    var fetchedTxids := set tx | tx in txs :: tx.txid;
    RepairedMap(m, h, txs, fetchedTxids);
    gone := RemoveUnfetched(tracker, initial, fetchedTxids, untilHeight);
    MergeFetched(tracker, txs);
    tracker.SetLoading(false);
  }

  lemma RepairedMap(m: TxMap, h: seq<Tx>, txs: seq<Tx>, ids: set<Txid>)
    requires ProperMap(m) && DistinctIds(h) && txs == Reverse(Fetched(m, h)) && ids == set tx | tx in txs :: tx.txid
    ensures m - Unfetched(m, ids) + MapOf(txs) == SyncedMap(m, h) && ids == Ids(Fetched(m, h))
  {
    hide MapOf, Reverse, NewestConfirmed, FetchedLength;
    MergeByParts(m, Fetched(m, h), h);
    ReverseIds(Fetched(m, h));
    assert ids == Ids(txs);
  }

  /** What a successful synchronisation tells the subscribers of the wallet. */
  ghost function SyncAnnouncements(v: View, h: seq<Tx>, gone: seq<Tx>, spk: Script): seq<Event>
    requires ProperMap(v.transactions)
  {
    Withdrawals(spk, gone) + Arrivals(spk, Reverse(Fetched(v.transactions, h))) + Announcements(spk, v.queue)
  }

  lemma ReverseIds(s: seq<Tx>)
    ensures Ids(Reverse(s)) == Ids(s)
  {
    var r := Reverse(s);
    forall i | 0 <= i < |s| ensures s[i] in r && r[i] in s {
      assert r[|s| - 1 - i] == s[i];
    }
  }

  /** Removing and then adding, as the synchronisation does, is `Merge`. */
  lemma MergeByParts(m: TxMap, fetched: seq<Tx>, h: seq<Tx>)
    requires DistinctIds(h) && |fetched| <= |h| && fetched == h[..|fetched|]
    ensures m - Unfetched(m, set tx | tx in Reverse(fetched) :: tx.txid) + MapOf(Reverse(fetched)) == Merge(m, fetched)
  {
    hide MapOf, Reverse;
    MapOfReverse(fetched);
    ReverseIds(fetched);
    assert Ids(Reverse(fetched)) == set tx | tx in Reverse(fetched) :: tx.txid;
  }

  lemma EmptyViewProper()
    ensures ProperView(View(map[], [], true))
  {
  }

  method SetToSeq(s: set<Script>) returns (r: seq<Script>)
    ensures Control.Members(r) == s
  {
    r := [];
    var rest := s;
    while rest != {}
      invariant rest <= s && Control.Members(r) == s - rest
      decreases |rest|
    {
      var x :| x in rest;
      Control.MembersAppend(r, x);
      r := r + [x];
      rest := rest - {x};
    }
  }

  /** The scripts named by some of the calls. */
  ghost function Dropped(calls: seq<seq<Script>>): set<Script> {
    set spks, spk | spks in calls && spk in spks :: spk
  }

  lemma DroppedStep(calls: seq<seq<Script>>, spks: seq<Script>)
    ensures Dropped(calls + [spks]) == Dropped(calls) + Control.Members(spks)
    ensures Unsubscriptions(calls + [spks]) == Unsubscriptions(calls) + [Control.Unsubscribe(spks)]
  {
    assert spks in calls + [spks];
    assert forall c :: c in calls ==> c in calls + [spks];
  }

  function Unsubscriptions(calls: seq<seq<Script>>): seq<Control.Command> {
    seq(|calls|, i requires 0 <= i < |calls| => Control.Unsubscribe(calls[i]))
  }

  class Wallet {
    var addresses: map<Script, Tracker>

    /** Commands sent to the control task, oldest first. */
    var commands: seq<Control.Command>

    ghost predicate Valid()
      reads this, addresses.Values
    {
      forall spk :: spk in addresses ==>
        addresses[spk].Valid() && addresses[spk].scriptpubkey == spk && ProperView(addresses[spk].Model())
    }

    ghost function Models(): Views
      reads this, addresses.Values
    {
      map spk | spk in addresses :: addresses[spk].Model()
    }

    constructor ()
      ensures Valid() && Models() == map[] && commands == []
    {
      addresses := map[];
      commands := [];
    }

    method HandleAddressEvent(event: Event, realtime: bool)
      requires Valid() && Proper(event.tx)
      modifies addresses.Values
      ensures Valid() && Models() == Deliver(old(Models()), event, realtime)
    {
      hide Tracker.Valid, Receive;
      if event.scriptpubkey in addresses {
        var tracker := addresses[event.scriptpubkey];
        assert tracker.Valid() && ProperView(tracker.Model());
        ReceiveKeepsProper(tracker.Model(), event, realtime);
        tracker.ProcessEvent(event, realtime);
        forall spk | spk in addresses && spk != event.scriptpubkey
          ensures addresses[spk] != tracker
        {
        }
      }
    }

    /** Synchronises the given scripts one after the other, in any order; failures are ignored. */
    method SyncAll(scripts: set<Script>, server: Script -> seq<Tx>, fails: Script -> Option<nat>)
      requires Valid() && scripts <= addresses.Keys
      requires forall spk :: DistinctIds(server(spk)) && AllProper(server(spk))
      modifies set spk | spk in scripts :: addresses[spk]
      ensures Valid()
      ensures forall spk :: spk in addresses && spk !in scripts ==> addresses[spk].Model() == old(addresses[spk].Model())
      ensures forall spk :: spk in scripts ==>
                addresses[spk].Model() == Synced(old(addresses[spk].Model()), server(spk), fails(spk))
    {
      hide Tracker.Valid, ProperView, Synced, DistinctIds, AllProper;
      var rest := scripts;
      while rest != {}
        invariant rest <= scripts
        invariant forall k :: k in addresses ==>
          addresses[k].Valid() && addresses[k].scriptpubkey == k && ProperView(addresses[k].Model())
        invariant forall k :: k in addresses && (k in rest || k !in scripts) ==> addresses[k].Model() == old(addresses[k].Model())
        invariant forall k :: k in scripts && k !in rest ==>
          addresses[k].Model() == Synced(old(addresses[k].Model()), server(k), fails(k))
        decreases |rest|
      {
        var spk :| spk in rest;
        rest := rest - {spk};
        label before:
        SyncIgnoringFailure(addresses[spk], server(spk), fails(spk));
        forall k | k in addresses && k != spk ensures addresses[k].Model() == old@before(addresses[k].Model()) {
          assert addresses[k] != addresses[spk];
        }
      }
    }

    /** The reconnection handler: subscribe to every watched script again, then repair every tracker. */
    method InitAddresses(server: Script -> seq<Tx>, fails: Script -> Option<nat>) returns (ghost spks: seq<Script>)
      requires Valid()
      requires forall spk :: DistinctIds(server(spk)) && AllProper(server(spk))
      modifies this`commands, addresses.Values
      ensures Valid() && addresses == old(addresses)
      ensures forall spk :: spk in addresses ==>
                addresses[spk].Model() == Synced(old(addresses[spk].Model()), server(spk), fails(spk))
      ensures commands == old(commands) + [Control.Subscribe(spks)] && Control.Members(spks) == addresses.Keys
    {
      hide Tracker.Valid, ProperView, Synced, DistinctIds, AllProper;
      var keys := SetToSeq(addresses.Keys);
      commands := commands + [Control.Subscribe(keys)];
      SyncAll(addresses.Keys, server, fails);
      spks := keys;
    }

    /**
     * Starts watching: subscribe first, then insert the missing trackers, then synchronise those, then look all of
     * them up. `meanwhile`: the calls of `unwatch` that other tasks make during the downloads, when the map is not
     * locked. `None` is a panic: the lookup expects every script to be there.
     */
    method Watch(scriptpubkeys: seq<Script>, server: Script -> seq<Tx>, fails: Script -> Option<nat>,
                 meanwhile: seq<seq<Script>>)
      returns (results: Option<seq<State>>)
      requires Valid()
      requires forall spk :: DistinctIds(server(spk)) && AllProper(server(spk))
      modifies this
      ensures Valid()
      ensures commands == old(commands) + [Control.Subscribe(scriptpubkeys)] + Unsubscriptions(meanwhile)
      ensures addresses.Keys == old(addresses.Keys) + Control.Members(scriptpubkeys) - Dropped(meanwhile)
      ensures forall spk :: spk in old(addresses) && spk in addresses ==>
                addresses[spk] == old(addresses[spk]) && addresses[spk].Model() == old(addresses[spk].Model())
      ensures forall spk :: spk in addresses && spk !in old(addresses) ==>
                addresses[spk].Model() == Synced(View(map[], [], true), server(spk), fails(spk))
      ensures results.None? <==> exists spk :: spk in scriptpubkeys && spk in Dropped(meanwhile)
      ensures results.Some? ==> |results.value| == |scriptpubkeys|
      ensures results.Some? ==> forall i :: 0 <= i < |scriptpubkeys| ==>
                scriptpubkeys[i] in addresses && Reports(results.value[i], addresses[scriptpubkeys[i]])
    {
      hide Tracker.Valid, ProperView, Synced, DistinctIds, AllProper, IsStateOf, Dropped;
      commands := commands + [Control.Subscribe(scriptpubkeys)];
      var known := addresses.Keys;
      Insert(scriptpubkeys);
      SyncAll(addresses.Keys - known, server, fails);
      UnwatchAll(meanwhile);
      results := CollectStates(scriptpubkeys);
    }

    method UnwatchAll(calls: seq<seq<Script>>)
      requires Valid()
      modifies this
      ensures Valid() && addresses == old(addresses) - Dropped(calls)
      ensures commands == old(commands) + Unsubscriptions(calls)
    {
      hide Tracker.Valid, ProperView;
      for i := 0 to |calls|
        invariant Valid() && addresses == old(addresses) - Dropped(calls[..i])
        invariant commands == old(commands) + Unsubscriptions(calls[..i])
      {
        DroppedStep(calls[..i], calls[i]);
        assert calls[..i + 1] == calls[..i] + [calls[i]];
        Unwatch(calls[i]);
      }
      assert calls[..|calls|] == calls;
    }

    /** The states of the scripts in order, or nothing if one of them is missing. */
    method CollectStates(scriptpubkeys: seq<Script>) returns (results: Option<seq<State>>)
      requires Valid()
      ensures results.None? <==> exists spk :: spk in scriptpubkeys && spk !in addresses
      ensures results.Some? ==> |results.value| == |scriptpubkeys|
      ensures results.Some? ==> forall i :: 0 <= i < |scriptpubkeys| ==>
                scriptpubkeys[i] in addresses && Reports(results.value[i], addresses[scriptpubkeys[i]])
    {
      hide Tracker.Valid, IsStateOf;
      var states: seq<State> := [];
      for i := 0 to |scriptpubkeys|
        invariant |states| == i
        invariant forall j :: 0 <= j < i ==>
          scriptpubkeys[j] in addresses && Reports(states[j], addresses[scriptpubkeys[j]])
      {
        if scriptpubkeys[i] !in addresses {
          return None;
        }
        var state := addresses[scriptpubkeys[i]].GetState();
        states := states + [state];
      }
      results := Some(states);
    }

    method Insert(scriptpubkeys: seq<Script>)
      requires Valid()
      modifies this`addresses
      ensures Valid() && addresses.Keys == old(addresses.Keys) + Control.Members(scriptpubkeys)
      ensures forall spk :: spk in old(addresses) ==> addresses[spk] == old(addresses[spk])
      ensures forall spk :: spk in addresses && spk !in old(addresses) ==>
                fresh(addresses[spk]) && addresses[spk].Model() == View(map[], [], true)
    {
      hide Tracker.Valid, ProperView, Control.Members;
      Control.MembersEmpty();
      assert scriptpubkeys[..0] == [];
      for i := 0 to |scriptpubkeys|
        invariant addresses.Keys == old(addresses.Keys) + Control.Members(scriptpubkeys[..i])
        invariant forall spk :: spk in old(addresses) ==> addresses[spk] == old(addresses[spk])
        invariant forall spk :: spk in addresses && spk !in old(addresses) ==>
          fresh(addresses[spk]) && addresses[spk].Model() == View(map[], [], true)
        invariant Valid()
      {
        assert scriptpubkeys[..i + 1] == scriptpubkeys[..i] + [scriptpubkeys[i]];
        var spk := scriptpubkeys[i];
        Control.MembersAppend(scriptpubkeys[..i], spk);
        if spk !in addresses {
          var tracker := new Tracker(spk);
          EmptyViewProper();
          addresses := addresses[spk := tracker];
        }
      }
      assert scriptpubkeys[..|scriptpubkeys|] == scriptpubkeys;
    }

    method Unwatch(scriptpubkeys: seq<Script>)
      requires Valid()
      modifies this
      ensures Valid() && addresses == old(addresses) - Control.Members(scriptpubkeys)
      ensures Models() == old(Models()) - Control.Members(scriptpubkeys)
      ensures commands == old(commands) + [Control.Unsubscribe(scriptpubkeys)]
    {
      hide Tracker.Valid, ProperView;
      for i := 0 to |scriptpubkeys|
        invariant addresses == old(addresses) - Control.Members(scriptpubkeys[..i])
        invariant commands == old(commands)
      {
        assert scriptpubkeys[..i + 1] == scriptpubkeys[..i] + [scriptpubkeys[i]];
        addresses := addresses - {scriptpubkeys[i]};
      }
      assert scriptpubkeys[..|scriptpubkeys|] == scriptpubkeys;
      commands := commands + [Control.Unsubscribe(scriptpubkeys)];
    }
  }
}
