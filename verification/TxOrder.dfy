/** The chronological order of transactions (`cmp_tx_time`) and the sorted state built from it. */
module TxOrder {
  import opened Types

  datatype Ordering = Less | Equal | Greater

  function CompareNat(a: nat, b: nat): Ordering {
    if a < b then Less else if a == b then Equal else Greater
  }

  function CompareHeight(a: Option<U32>, b: Option<U32>): Ordering {
    if OptionLess(a, b) then Less else if a == b then Equal else Greater
  }

  /** The source's fourth case, neither confirmed, cannot be reached under its guard. */
  function CmpTxTime(a: Tx, b: Tx): Ordering {
    if (a.status.confirmed || b.status.confirmed) && a.status.blockHeight != b.status.blockHeight then
      if a.status.confirmed && b.status.confirmed then CompareHeight(a.status.blockHeight, b.status.blockHeight)
      else if a.status.confirmed then Less
      else Greater
    else
      CompareNat(a.txid, b.txid)
  }

  predicate Precedes(a: Tx, b: Tx) {
    CmpTxTime(a, b) == Less
  }

  /** On properly stated transactions the comparison is a strict total order on distinct ids. */
  lemma StrictTotalOrder(a: Tx, b: Tx, c: Tx)
    requires Proper(a) && Proper(b) && Proper(c)
    ensures !Precedes(a, a)
    ensures Precedes(a, b) <==> CmpTxTime(b, a) == Greater
    ensures Precedes(a, b) ==> !Precedes(b, a)
    ensures Precedes(a, b) && Precedes(b, c) ==> Precedes(a, c)
    ensures a.txid != b.txid ==> Precedes(a, b) || Precedes(b, a)
    ensures Precedes(a, b) && b.status.confirmed ==> a.status.confirmed && a.status.blockHeight.value <= b.status.blockHeight.value
  {
  }

  /** A cycle of the comparison. */
  ghost predicate Cycle(a: Tx, b: Tx, c: Tx) {
    Precedes(a, b) && Precedes(b, c) && Precedes(c, a)
  }

  /** One status can be mixed with properly stated transactions without creating a cycle exactly when it is proper itself. */
  lemma OrderSoundIffProperStatus(s: TxStatus)
    ensures ProperStatus(s) <==>
            forall a: Tx, b: Tx, c: Tx :: a.status == s && Proper(b) && Proper(c) ==> !Cycle(a, b, c)
  {
    if ProperStatus(s) {
      forall a: Tx, b: Tx, c: Tx | a.status == s && Proper(b) && Proper(c) ensures !Cycle(a, b, c) {
        StrictTotalOrder(a, b, c);
      }
    } else if s.confirmed {
      var a := Tx(2, [], [], s);
      var b := Tx(3, [], [], TxStatus(true, Some(5)));
      var c := Tx(1, [], [], TxStatus(false, None));
      assert Cycle(a, b, c);
    } else {
      var a := Tx(2, [], [], s);
      var b := Tx(3, [], [], TxStatus(true, s.blockHeight));
      var c := Tx(1, [], [], TxStatus(false, None));
      assert Cycle(a, b, c);
    }
  }

  ghost predicate Sorted(s: seq<Tx>) {
    forall i, j :: 0 <= i < j < |s| ==> Precedes(s[i], s[j])
  }

  ghost predicate AllProper(s: seq<Tx>) {
    forall i :: 0 <= i < |s| ==> Proper(s[i])
  }

  /** The state list of a map: its values, in chronological order. */
  ghost predicate IsStateOf(s: seq<Tx>, m: TxMap) {
    Lists(s, m) && Sorted(s)
  }

  /** Insertion of one transaction into a sorted list, before the first one it precedes. */
  function InsertByTime(tx: Tx, s: seq<Tx>): (r: seq<Tx>)
    ensures multiset(r) == multiset(s) + multiset{tx}
  {
    if s == [] then [tx]
    else if Precedes(tx, s[0]) then [tx] + s
    else
      assert s == [s[0]] + s[1..];
      [s[0]] + InsertByTime(tx, s[1..])
  }

  /** The library sort, reduced to what its contract promises. */
  function SortByTime(s: seq<Tx>): (r: seq<Tx>)
    ensures multiset(r) == multiset(s)
  {
    if s == [] then []
    else
      assert s == [s[0]] + s[1..];
      InsertByTime(s[0], SortByTime(s[1..]))
  }

  lemma {:induction false} InsertSorted(tx: Tx, s: seq<Tx>)
    requires Proper(tx) && AllProper(s) && Sorted(s)
    requires forall i :: 0 <= i < |s| ==> s[i].txid != tx.txid
    ensures Sorted(InsertByTime(tx, s))
  {
    if s != [] {
      var r := InsertByTime(tx, s[1..]);
      if Precedes(tx, s[0]) {
        forall j | 0 <= j < |s| ensures Precedes(tx, s[j]) {
          StrictTotalOrder(tx, s[0], s[j]);
        }
      } else {
        InsertSorted(tx, s[1..]);
        forall j | 0 <= j < |r| ensures Precedes(s[0], r[j]) {
          assert r[j] in multiset(r);
          if r[j] == tx {
            StrictTotalOrder(s[0], tx, tx);
          } else {
            assert r[j] in multiset(s[1..]);
            assert r[j] in s[1..];
          }
        }
      }
    }
  }

  lemma SameMembers(s: seq<Tx>, r: seq<Tx>)
    requires multiset(s) == multiset(r)
    ensures forall x :: x in s <==> x in r
  {
    forall x ensures x in s <==> x in r {
      assert x in s <==> x in multiset(s);
      assert x in r <==> x in multiset(r);
    }
  }

  lemma {:induction false} SortSorts(s: seq<Tx>)
    requires AllProper(s) && DistinctIds(s)
    ensures Sorted(SortByTime(s))
  {
    if s != [] {
      var rest := SortByTime(s[1..]);
      SortSorts(s[1..]);
      SameMembers(rest, s[1..]);
      forall i | 0 <= i < |rest| ensures Proper(rest[i]) && rest[i].txid != s[0].txid {
        assert rest[i] in s[1..];
        var j :| 0 <= j < |s[1..]| && s[1..][j] == rest[i];
        assert s[j + 1] == rest[i];
      }
      InsertSorted(s[0], rest);
    }
  }

  /** Sorting any listing of a map gives its state list. */
  lemma SortGivesState(s: seq<Tx>, m: TxMap)
    requires Lists(s, m) && ProperMap(m)
    ensures IsStateOf(SortByTime(s), m)
  {
    var r := SortByTime(s);
    SortSorts(s);
    SameMembers(r, s);
    forall i | 0 <= i < |r| ensures r[i].txid in m && m[r[i].txid] == r[i] {
      assert r[i] in s;
    }
    forall i, j | 0 <= i < j < |r| ensures r[i].txid != r[j].txid {
      assert r[i] in s && r[j] in s;
      assert Precedes(r[i], r[j]);
      StrictTotalOrder(r[i], r[j], r[j]);
    }
  }

  /** Confirmed before unconfirmed; among confirmed ones by height, and in one block by id; among unconfirmed ones by id. */
  predicate Earlier(a: Tx, b: Tx)
    requires Proper(a) && Proper(b)
  {
    if a.status.confirmed && b.status.confirmed then
      a.status.blockHeight.value < b.status.blockHeight.value
      || (a.status.blockHeight == b.status.blockHeight && a.txid < b.txid)
    else if a.status.confirmed || b.status.confirmed then a.status.confirmed
    else a.txid < b.txid
  }

  ghost predicate Chronological(s: seq<Tx>) {
    AllProper(s) && forall i, j :: 0 <= i < j < |s| ==> Earlier(s[i], s[j])
  }

  /** A listing of a map is its state list exactly when it is chronological. */
  lemma StateIffChronological(s: seq<Tx>, m: TxMap)
    requires ProperMap(m) && Lists(s, m)
    ensures IsStateOf(s, m) <==> Chronological(s)
  {
    forall i | 0 <= i < |s| ensures Proper(s[i]) {
      assert m[s[i].txid] == s[i];
    }
    forall i, j | 0 <= i < j < |s| ensures Precedes(s[i], s[j]) <==> Earlier(s[i], s[j]) {
      assert s[i].txid != s[j].txid;
    }
  }

  lemma {:induction false} SortedUnique(s: seq<Tx>, r: seq<Tx>)
    requires AllProper(s) && AllProper(r) && Sorted(s) && Sorted(r)
    requires forall x :: x in s <==> x in r
    ensures s == r
  {
    assert forall i :: 0 <= i < |r| ==> r[i] in s;
    assert forall i :: 0 <= i < |s| ==> s[i] in r;
    if s != [] && r != [] {
      assert s[0] in r && r[0] in s;
      if s[0] != r[0] {
        StrictTotalOrder(s[0], r[0], s[0]);
        assert false;
      }
      forall x ensures x in s[1..] <==> x in r[1..] {
        StrictTotalOrder(s[0], s[0], s[0]);
        assert s == [s[0]] + s[1..] && r == [r[0]] + r[1..];
        if x in s[1..] { assert Precedes(s[0], x); assert x in r; }
        if x in r[1..] { assert Precedes(r[0], x); assert x in s; }
      }
      SortedUnique(s[1..], r[1..]);
      assert s == [s[0]] + s[1..] && r == [r[0]] + r[1..];
    }
  }

  /** The state does not depend on the iteration order of the hash map, and confirmed transactions come first. */
  lemma CanonicalState(m: TxMap, s: seq<Tx>, r: seq<Tx>)
    requires ProperMap(m) && Lists(s, m) && Lists(r, m)
    ensures SortByTime(s) == SortByTime(r)
    ensures IsStateOf(SortByTime(s), m)
    ensures forall i, j :: 0 <= i < j < |s| && SortByTime(s)[j].status.confirmed ==> SortByTime(s)[i].status.confirmed
  {
    var a, b := SortByTime(s), SortByTime(r);
    SortGivesState(s, m);
    SortGivesState(r, m);
    assert |a| == |multiset(a)| == |multiset(s)| == |s|;
    forall x ensures x in a <==> x in b {
      if x in a { assert m[x.txid] == x; }
      if x in b { assert m[x.txid] == x; }
    }
    SortedUnique(a, b);
    forall i, j | 0 <= i < j < |a| && a[j].status.confirmed ensures a[i].status.confirmed {
      assert Precedes(a[i], a[j]);
      StrictTotalOrder(a[i], a[j], a[j]);
    }
  }

  lemma StateUnique(m: TxMap, s: seq<Tx>, r: seq<Tx>)
    requires ProperMap(m) && IsStateOf(s, m) && IsStateOf(r, m)
    ensures s == r
  {
    forall x ensures x in s <==> x in r {
      if x in s { assert m[x.txid] == x; }
      if x in r { assert m[x.txid] == x; }
    }
    SortedUnique(s, r);
  }

  /** Some listing of a map. */
  ghost function Listing(m: TxMap): (s: seq<Tx>)
    requires Keyed(m)
    ensures Lists(s, m)
    decreases m.Keys
  {
    if m == map[] then []
    else
      var k :| k in m;
      var rest := Listing(m - {k});
      ListsCons(m, k, rest);
      [m[k]] + rest
  }

  lemma ListsCons(m: TxMap, k: Txid, rest: seq<Tx>)
    requires Keyed(m) && k in m && Lists(rest, m - {k})
    ensures Lists([m[k]] + rest, m)
  {
    forall j | j in m ensures m[j] in [m[k]] + rest {
      if j != k { assert (m - {k})[j] in rest; }
    }
  }

  /** The state list of a map. */
  ghost function StateOf(m: TxMap): (s: seq<Tx>)
    requires ProperMap(m)
    ensures IsStateOf(s, m)
  {
    var s := Listing(m);
    SortGivesState(s, m);
    SortByTime(s)
  }

  /** The last confirmed transaction of a list: the reverse `find`. */
  function LastConfirmedIn(s: seq<Tx>): (r: Option<Tx>)
    ensures r.Some? ==> r.value in s && r.value.status.confirmed
    ensures r.None? ==> forall i :: 0 <= i < |s| ==> !s[i].status.confirmed
  {
    if s == [] then None
    else if s[|s| - 1].status.confirmed then Some(s[|s| - 1])
    else LastConfirmedIn(s[..|s| - 1])
  }

  /** The newest confirmed transaction a map holds. */
  ghost function NewestConfirmed(m: TxMap): (r: Option<Tx>)
    requires ProperMap(m)
  {
    LastConfirmedIn(StateOf(m))
  }

  lemma {:induction false} LastConfirmedIsLast(s: seq<Tx>)
    requires Sorted(s) && AllProper(s) && LastConfirmedIn(s).Some?
    ensures forall i :: 0 <= i < |s| && s[i].status.confirmed ==> s[i] == LastConfirmedIn(s).value || Precedes(s[i], LastConfirmedIn(s).value)
  {
    if s != [] && !s[|s| - 1].status.confirmed {
      LastConfirmedIsLast(s[..|s| - 1]);
      assert forall i :: 0 <= i < |s| - 1 ==> s[..|s| - 1][i] == s[i];
    }
  }

  lemma NewestOfItsBlock(m: TxMap, s: seq<Tx>, tx: Tx)
    requires ProperMap(m) && IsStateOf(s, m) && AllProper(s) && LastConfirmedIn(s) == Some(tx)
    ensures forall k :: k in m && m[k].status == tx.status ==> k <= tx.txid
  {
    hide Proper, AllProper;
    LastConfirmedIsLast(s);
    forall k | k in m && m[k].status == tx.status ensures k <= tx.txid {
      var i :| 0 <= i < |s| && s[i] == m[k];
    }
  }

  /** `NewestConfirmed` carries the greatest confirmed height of the map. */
  lemma NewestIsHighest(m: TxMap)
    requires ProperMap(m)
    ensures NewestConfirmed(m).None? <==> forall k :: k in m ==> !m[k].status.confirmed
    ensures NewestConfirmed(m).Some? ==>
              var tx := NewestConfirmed(m).value;
              tx.txid in m && m[tx.txid] == tx && tx.status.confirmed && tx.status.blockHeight.Some?
              && (forall k :: k in m && m[k].status.confirmed ==> m[k].status.blockHeight.value <= tx.status.blockHeight.value)
              && (forall k :: k in m && m[k].status == tx.status ==> k <= tx.txid)
  {
    var s := StateOf(m);
    forall i | 0 <= i < |s| ensures Proper(s[i]) {
      assert m[s[i].txid] == s[i];
    }
    if NewestConfirmed(m).Some? {
      LastConfirmedIsLast(s);
      var tx := NewestConfirmed(m).value;
      forall k | k in m && m[k].status.confirmed ensures m[k].status.blockHeight.value <= tx.status.blockHeight.value {
        assert m[k] in s;
        StrictTotalOrder(m[k], tx, tx);
      }
      NewestOfItsBlock(m, s, tx);
    } else {
      forall k | k in m ensures !m[k].status.confirmed {
        assert m[k] in s;
      }
    }
  }
}
