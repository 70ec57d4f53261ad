/** What one history synchronisation does to a tracker's transaction map, and when it is right. */
module WalletSync {
  import opened Types
  import opened TxOrder
  import opened EventLog
  import opened Api

  /** A server history: distinct properly stated transactions, unconfirmed first, then by descending height. */
  ghost predicate NewestFirst(h: seq<Tx>) {
    && DistinctIds(h) && AllProper(h)
    && forall i, j :: 0 <= i < j < |h| && h[i].status.confirmed ==>
         h[j].status.confirmed && h[j].status.blockHeight.value <= h[i].status.blockHeight.value
  }

  ghost function Ids(s: seq<Tx>): set<Txid> {
    set tx | tx in s :: tx.txid
  }

  /** The fetched transactions over the old map, without the unconfirmed ones that were not fetched. */
  ghost function Merge(m: TxMap, fetched: seq<Tx>): TxMap {
    (m - (set k | k in m && !m[k].status.confirmed && k !in Ids(fetched))) + MapOf(fetched)
  }

  ghost function UntilTxid(m: TxMap): Option<Txid>
    requires ProperMap(m)
  {
    var tx := NewestConfirmed(m);
    if tx.None? then None else Some(tx.value.txid)
  }

  ghost function UntilHeight(m: TxMap): Option<U32>
    requires ProperMap(m)
  {
    var tx := NewestConfirmed(m);
    if tx.None? then None else tx.value.status.blockHeight
  }

  /** The part of the history that a synchronisation starting from `m` downloads. */
  ghost function Fetched(m: TxMap, h: seq<Tx>): seq<Tx>
    requires ProperMap(m)
  {
    h[..FetchedLength(h, UntilTxid(m), UntilHeight(m))]
  }

  ghost function SyncedMap(m: TxMap, h: seq<Tx>): TxMap
    requires ProperMap(m)
  {
    Merge(m, Fetched(m, h))
  }

  /**
   * What a disconnected tracker must satisfy to be repairable: its confirmed transactions are the
   * server's, and it holds every server transaction confirmed strictly below its own highest height.
   */
  ghost predicate Recoverable(m: TxMap, server: TxMap) {
    && (forall k :: k in m && m[k].status.confirmed ==> k in server && server[k] == m[k])
    && (forall k, top :: k in server && server[k].status.confirmed && top in m && HigherConfirmed(m[top], server[k])
          ==> k in m && m[k] == server[k])
  }

  predicate HigherConfirmed(a: Tx, b: Tx) {
    a.status.confirmed && b.status.confirmed && OptionLess(b.status.blockHeight, a.status.blockHeight)
  }

  lemma MergeLookup(m: TxMap, h: seq<Tx>, n: nat, k: Txid)
    requires DistinctIds(h) && n <= |h|
    ensures Lookup(Merge(m, h[..n]), k) ==
            if k in Ids(h[..n]) then Lookup(MapOf(h), k)
            else if k in m && m[k].status.confirmed then Some(m[k]) else None
  {
    hide MapOf;
    var f := h[..n];
    if k in Ids(f) {
      PrefixValue(h, n, k);
    } else {
      MapOfDistinct(f);
      assert forall x :: x in MapOf(f) ==> MapOf(f)[x] in f;
    }
  }

  lemma PrefixValue(h: seq<Tx>, n: nat, k: Txid)
    requires DistinctIds(h) && n <= |h| && k in Ids(h[..n])
    ensures k in MapOf(h[..n]) && k in MapOf(h) && MapOf(h)[k] == MapOf(h[..n])[k]
  {
    hide MapOf;
    var f := h[..n];
    MapOfDistinct(h);
    MapOfDistinct(f);
    var tx :| tx in f && tx.txid == k;
    var i :| 0 <= i < |f| && f[i] == tx;
    assert h[i] == tx;
  }

  lemma BeyondPrefix(h: seq<Tx>, n: nat, k: Txid)
    requires DistinctIds(h) && n <= |h|
    ensures k in MapOf(h) && k !in Ids(h[..n]) <==> exists j :: n <= j < |h| && h[j].txid == k
    ensures forall j :: n <= j < |h| && h[j].txid == k ==> k in MapOf(h) && MapOf(h)[k] == h[j]
  {
    MapOfDistinct(h);
    if k in MapOf(h) && k !in Ids(h[..n]) {
      var j :| 0 <= j < |h| && h[j] == MapOf(h)[k];
      assert forall i :: 0 <= i < n ==> h[..n][i] in h[..n];
    }
    forall j, tx | n <= j < |h| && h[j].txid == k && tx in h[..n] ensures tx.txid != k {
      var i :| 0 <= i < n && h[i] == tx;
    }
  }

  /**
   * The exact condition for a prefix of the history to be enough: what lies beyond it is already held as
   * confirmed, and nothing confirmed is held that the history does not have.
   */
  lemma MergeIsHistoryIff(m: TxMap, h: seq<Tx>, n: nat)
    requires Keyed(m) && DistinctIds(h) && n <= |h|
    ensures Merge(m, h[..n]) == MapOf(h) <==>
            && (forall j :: n <= j < |h| ==> h[j].txid in m && m[h[j].txid] == h[j] && h[j].status.confirmed)
            && (forall k :: k in m && m[k].status.confirmed && k !in Ids(h[..n]) ==> k in MapOf(h) && MapOf(h)[k] == m[k])
  {
    var f := h[..n];
    if Merge(m, f) == MapOf(h) {
      forall j | n <= j < |h| ensures h[j].txid in m && m[h[j].txid] == h[j] && h[j].status.confirmed {
        MergeLookup(m, h, n, h[j].txid);
        BeyondPrefix(h, n, h[j].txid);
      }
      forall k | k in m && m[k].status.confirmed && k !in Ids(f) ensures k in MapOf(h) && MapOf(h)[k] == m[k] {
        MergeLookup(m, h, n, k);
      }
    }
    if && (forall j :: n <= j < |h| ==> h[j].txid in m && m[h[j].txid] == h[j] && h[j].status.confirmed)
       && (forall k :: k in m && m[k].status.confirmed && k !in Ids(f) ==> k in MapOf(h) && MapOf(h)[k] == m[k]) {
      forall k ensures Lookup(Merge(m, f), k) == Lookup(MapOf(h), k) {
        MergeLookup(m, h, n, k);
        BeyondPrefix(h, n, k);
      }
      MapsEqual(Merge(m, f), MapOf(h));
    }
  }

  /** Beyond the downloaded prefix there are only transactions confirmed strictly below the highest height held. */
  lemma RestIsOlder(m: TxMap, h: seq<Tx>, j: nat)
    requires ProperMap(m) && NewestFirst(h)
    requires |Fetched(m, h)| <= j < |h|
    ensures UntilHeight(m).Some? && Below(h[j], UntilHeight(m))
  {
    hide NewestConfirmed, HasId, FetchedLength;
    NewestIsHighest(m);
    assert StopsAt(h, |Fetched(m, h)|, UntilTxid(m), UntilHeight(m));
    var i :| 0 <= i < |Fetched(m, h)| && Below(h[i], UntilHeight(m));
  }

  lemma OlderIsHeld(m: TxMap, server: TxMap, k: Txid, top: Txid)
    requires Recoverable(m, server)
    requires k in server && top in m && HigherConfirmed(m[top], server[k])
    ensures k in m && m[k] == server[k]
  {
  }

  lemma RestIsHeld(m: TxMap, h: seq<Tx>, j: nat)
    requires ProperMap(m) && NewestFirst(h)
    requires Recoverable(m, MapOf(h))
    requires |Fetched(m, h)| <= j < |h|
    ensures h[j].txid in m && m[h[j].txid] == h[j] && h[j].status.confirmed
  {
    hide NewestConfirmed, Fetched, Recoverable;
    RestIsOlder(m, h, j);
    NewestIsHighest(m);
    MapOfDistinct(h);
    OlderIsHeld(m, MapOf(h), h[j].txid, NewestConfirmed(m).value.txid);
  }

  /** A synchronisation that stops early ends with the whole server history, including the pages it never fetched. */
  lemma PartialSyncIsFullSync(m: TxMap, h: seq<Tx>)
    requires ProperMap(m) && NewestFirst(h)
    requires Recoverable(m, MapOf(h))
    ensures SyncedMap(m, h) == MapOf(h)
  {
    hide NewestConfirmed, FetchedLength, StopsAt, Merge;
    var n := |Fetched(m, h)|;
    assert Fetched(m, h) == h[..n];
    forall j | n <= j < |h| ensures h[j].txid in m && m[h[j].txid] == h[j] && h[j].status.confirmed {
      RestIsHeld(m, h, j);
    }
    MergeIsHistoryIff(m, h, n);
  }

  /** A new tracker downloads everything, whatever the order of the history. */
  lemma FirstSyncIsHistory(h: seq<Tx>)
    requires DistinctIds(h)
    ensures SyncedMap(map[], h) == MapOf(h)
  {
    NewestIsHighest(map[]);
    MergeIsHistoryIff(map[], h, |h|);
  }

  /** A confirmed transaction that the server no longer has (a reorganisation) survives every synchronisation. */
  lemma VanishedConfirmedStays(m: TxMap, h: seq<Tx>, k: Txid)
    requires ProperMap(m) && NewestFirst(h)
    requires k in m && m[k].status.confirmed && k !in MapOf(h)
    ensures k in SyncedMap(m, h) && SyncedMap(m, h)[k] == m[k]
  {
    MergeLookup(m, h, |Fetched(m, h)|, k);
    MapOfDistinct(h);
    forall tx | tx in Fetched(m, h) ensures tx.txid != k {
      assert tx in h;
    }
  }

  function Block(count: nat, height: U32): (h: seq<Tx>)
    ensures |h| == count && forall i :: 0 <= i < count ==> h[i] == Tx(i, [], [], TxStatus(true, Some(height)))
  {
    seq(count, (i: nat) => Tx(i, [], [], TxStatus(true, Some(height))))
  }

  /**
   * Stopping "at or below" the height, as the comment on the download says, is not enough: fifty-one
   * transactions in one block, of which the tracker holds one, leave the last one out.
   */
  lemma NonStrictStopLoses()
    ensures var h := Block(51, 7); var m := map[0 := h[0]];
            && ProperMap(m) && NewestFirst(h) && Recoverable(m, MapOf(h))
            && HasId(h[..50], UntilTxid(m)) && h[49].status.blockHeight == UntilHeight(m)
            && Merge(m, h[..50]) != MapOf(h)
  {
    hide NewestConfirmed, Merge, MapOf, Recoverable;
    var h := Block(51, 7);
    var m := map[0 := h[0]];
    OneOfBlock(h, m);
    assert Some(h[..50][0].txid) == UntilTxid(m);
    MergeIsHistoryIff(m, h, 50);
    assert h[50].txid !in m;
  }

  lemma OneOfBlock(h: seq<Tx>, m: TxMap)
    requires h == Block(51, 7) && m == map[0 := h[0]]
    ensures ProperMap(m) && NewestFirst(h) && Recoverable(m, MapOf(h)) && NewestConfirmed(m) == Some(h[0])
  {
    hide NewestConfirmed, MapOf;
    MapOfDistinct(h);
    NewestIsHighest(m);
    assert 0 in m;
  }

  /** For an ordered history the stopping rule reads: full pages that contain the id and end strictly below the height. */
  lemma StopsAtIffEndsBelow(h: seq<Tx>, n: nat, untilTxid: Option<Txid>, height: U32)
    requires NewestFirst(h)
    ensures StopsAt(h, n, untilTxid, Some(height)) <==>
            && 0 < n <= |h| && n % 50 == 0
            && (untilTxid.Some? ==> exists i :: 0 <= i < n && h[i].txid == untilTxid.value)
            && h[n - 1].status.confirmed && h[n - 1].status.blockHeight.value < height
  {
    if 0 < n <= |h| && n % PAGE == 0 && HeightMet(h, n, Some(height)) {
      var i :| 0 <= i < n && Below(h[i], Some(height));
      assert Below(h[n - 1], Some(height)) by {
        assert i < n - 1 ==> h[n - 1].status.confirmed;
      }
    }
    if 0 < n <= |h| && n % PAGE == 0 && Below(h[n - 1], Some(height)) {
      assert (n - 1 + 1) % PAGE == 0;
    }
  }
}
