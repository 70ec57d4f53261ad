/**
 * What a subscriber of the wallet can know: a replica of one tracker's map, kept by applying the events that the
 * tracker announces. A removal is announced like a confirmation.
 */
module Subscriber {
  import opened Types
  import opened EventLog
  import opened Api
  import opened AddressTracker
  import opened WalletSync
  import opened WalletClient

  lemma {:induction false} LastAnnounced(spk: Script, es: seq<Event>, k: Txid)
    ensures LastAbout(Announcements(spk, es), k) ==
            match LastAbout(es, k) { case None => None case Some(e) => Some(Announcement(spk, e)) }
  {
    if es != [] {
      LastAnnounced(spk, es[..|es| - 1], k);
      assert Announcements(spk, es)[..|es| - 1] == Announcements(spk, es[..|es| - 1]);
    }
  }

  /** No transaction was last heard of by a removal. */
  ghost predicate NothingRemoved(es: seq<Event>) {
    forall k :: LastAbout(es, k).Some? ==> !LastAbout(es, k).value.Removed?
  }

  /** A replica follows a tracker through any events exactly when no transaction's last event is a removal. */
  lemma ReplicaFollowsIff(m: TxMap, spk: Script, es: seq<Event>)
    ensures ApplyAll(m, Announcements(spk, es)) == ApplyAll(m, es) <==> NothingRemoved(es)
  {
    var replica, held := ApplyAll(m, Announcements(spk, es)), ApplyAll(m, es);
    forall k
      ensures Lookup(replica, k) == Lookup(held, k) <==> (LastAbout(es, k).Some? ==> !LastAbout(es, k).value.Removed?)
    {
      LastEventDecides(m, Announcements(spk, es), k);
      LastEventDecides(m, es, k);
      LastAnnounced(spk, es, k);
    }
    if NothingRemoved(es) {
      MapsEqual(replica, held);
    }
  }

  /** The last of three parts that mentions a transaction decides. */
  lemma LastOfThree(a: seq<Event>, b: seq<Event>, c: seq<Event>, k: Txid)
    ensures LastAbout(a + b + c, k) ==
            if LastAbout(c, k).Some? then LastAbout(c, k) else if LastAbout(b, k).Some? then LastAbout(b, k) else LastAbout(a, k)
  {
    LastAboutConcat(a + b, c, k);
    LastAboutConcat(a, b, k);
  }

  lemma ArrivalLast(r: seq<Tx>, spk: Script, k: Txid)
    ensures LastAbout(Arrivals(spk, r), k).Some? <==> k in Ids(r)
    ensures LastAbout(Arrivals(spk, r), k).Some? ==>
              exists tx :: tx in r && tx.txid == k && Outcome(LastAbout(Arrivals(spk, r), k).value) == Some(tx)
  {
    hide LastAbout;
    var es := Arrivals(spk, r);
    if k in Ids(r) {
      var tx :| tx in r && tx.txid == k;
      var i :| 0 <= i < |r| && r[i] == tx;
      assert es[i] in es && es[i].tx.txid == k;
    }
    if LastAbout(es, k).Some? {
      var i :| 0 <= i < |es| && es[i] == LastAbout(es, k).value;
      assert r[i] in r;
    }
  }

  /** The announcement of a fetched transaction leaves behind what the history says. */
  lemma ArrivalDecides(h: seq<Tx>, n: nat, spk: Script, k: Txid)
    requires DistinctIds(h) && n <= |h|
    ensures var last := LastAbout(Arrivals(spk, Reverse(h[..n])), k);
            && (last.Some? <==> k in Ids(h[..n]))
            && (last.Some? ==> Outcome(last.value) == Lookup(MapOf(h), k))
  {
    hide MapOf, LastAbout, Arrivals, DistinctIds;
    var f, r := h[..n], Reverse(h[..n]);
    ReverseIds(f);
    ArrivalLast(r, spk, k);
    if tx :| tx in r && tx.txid == k && Outcome(LastAbout(Arrivals(spk, r), k).value) == Some(tx) {
      var i :| 0 <= i < |r| && r[i] == tx;
      assert h[|f| - 1 - i] == tx;
      MapOfDistinct(h);
    }
  }

  /** The announcement of a dropped transaction leaves that transaction behind. */
  lemma WithdrawalDecides(gone: seq<Tx>, m: TxMap, fetched: set<Txid>, spk: Script, k: Txid)
    requires AreUnfetched(gone, m, fetched) && Keyed(m)
    ensures var last := LastAbout(Withdrawals(spk, gone), k);
            && (last.Some? <==> k in Unfetched(m, fetched))
            && (last.Some? ==> Outcome(last.value).Some?)
  {
    var es := Withdrawals(spk, gone);
    if k in Unfetched(m, fetched) {
      assert m[k] in gone;
      var i :| 0 <= i < |gone| && gone[i] == m[k];
      assert es[i] in es && es[i].tx.txid == k;
    }
    if LastAbout(es, k).Some? {
      var i :| 0 <= i < |es| && es[i] == LastAbout(es, k).value;
      assert gone[i] in gone;
    }
  }

  /** Every transaction that was dropped is in the queue again. */
  ghost predicate AllReturn(gone: seq<Tx>, queue: seq<Event>) {
    forall tx :: tx in gone ==> LastAbout(queue, tx.txid).Some?
  }

  /**
   * After a successful synchronisation a replica that agreed before it agrees again exactly when every dropped
   * transaction came back with the queue and the queue's last word on no transaction was a removal.
   */
  lemma SyncReplicaIff(v: View, h: seq<Tx>, gone: seq<Tx>, spk: Script)
    requires ProperMap(v.transactions) && DistinctIds(h)
    requires AreUnfetched(gone, v.transactions, Ids(Fetched(v.transactions, h)))
    ensures ApplyAll(v.transactions, SyncAnnouncements(v, h, gone, spk)) == ApplyAll(SyncedMap(v.transactions, h), v.queue)
            <==> AllReturn(gone, v.queue) && NothingRemoved(v.queue)
  {
    hide AreUnfetched, FetchedLength, Merge, MapOf, Reverse, Arrivals, Withdrawals, Announcements;
    var m := v.transactions;
    var n := |Fetched(m, h)|;
    assert Fetched(m, h) == h[..n];
    var replica, held := ApplyAll(m, SyncAnnouncements(v, h, gone, spk)), ApplyAll(SyncedMap(m, h), v.queue);
    forall k ensures Lookup(replica, k) == Lookup(held, k) <==> Agreed(v, h, k) {
      OneTransaction(v, h, gone, spk, k);
    }
    UnfetchedAreGone(m, h, gone);
    if forall k :: Agreed(v, h, k) {
      MapsEqual(replica, held);
    }
    if AllReturn(gone, v.queue) && NothingRemoved(v.queue) {
      forall k ensures Agreed(v, h, k) {
        if k in Unfetched(m, Ids(Fetched(m, h))) { assert m[k] in gone; }
      }
    } else if !NothingRemoved(v.queue) {
      var k :| LastAbout(v.queue, k).Some? && LastAbout(v.queue, k).value.Removed?;
      assert !Agreed(v, h, k);
    } else {
      var tx :| tx in gone && LastAbout(v.queue, tx.txid).None?;
      assert !Agreed(v, h, tx.txid);
    }
  }

  /** The condition for one transaction. */
  ghost predicate Agreed(v: View, h: seq<Tx>, k: Txid)
    requires ProperMap(v.transactions)
  {
    match LastAbout(v.queue, k)
    case Some(e) => !e.Removed?
    case None => k !in Unfetched(v.transactions, Ids(Fetched(v.transactions, h)))
  }

  lemma UnfetchedAreGone(m: TxMap, h: seq<Tx>, gone: seq<Tx>)
    requires ProperMap(m) && AreUnfetched(gone, m, Ids(Fetched(m, h)))
    ensures forall k :: k in Unfetched(m, Ids(Fetched(m, h))) ==> m[k] in gone && m[k].txid == k
    ensures forall tx :: tx in gone ==> tx.txid in Unfetched(m, Ids(Fetched(m, h)))
  {
  }

  lemma OneTransaction(v: View, h: seq<Tx>, gone: seq<Tx>, spk: Script, k: Txid)
    requires ProperMap(v.transactions) && DistinctIds(h)
    requires AreUnfetched(gone, v.transactions, Ids(Fetched(v.transactions, h)))
    ensures var replica, held := ApplyAll(v.transactions, SyncAnnouncements(v, h, gone, spk)), ApplyAll(SyncedMap(v.transactions, h), v.queue);
            Lookup(replica, k) == Lookup(held, k) <==> Agreed(v, h, k)
  {
    hide AreUnfetched, FetchedLength, MapOf, Reverse, Arrivals, Withdrawals, Announcements, ApplyAll;
    var m := v.transactions;
    var n := |Fetched(m, h)|;
    assert Fetched(m, h) == h[..n];
    LastEventDecides(m, SyncAnnouncements(v, h, gone, spk), k);
    LastEventDecides(SyncedMap(m, h), v.queue, k);
    LastOfThree(Withdrawals(spk, gone), Arrivals(spk, Reverse(Fetched(m, h))), Announcements(spk, v.queue), k);
    LastAnnounced(spk, v.queue, k);
    ArrivalDecides(h, n, spk, k);
    WithdrawalDecides(gone, m, Ids(h[..n]), spk, k);
    MergeLookup(m, h, n, k);
  }
}
