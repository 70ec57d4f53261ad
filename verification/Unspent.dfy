/** What the balance means: the value of the script's unspent outputs. */
module Unspent {
  import opened Types
  import opened Balances
  import opened AddressTracker

  datatype OutPoint = OutPoint(txid: Txid, vout: nat)

  predicate Exists(m: TxMap, op: OutPoint) {
    op.txid in m && op.vout < |m[op.txid].vout|
  }

  function OutputAt(m: TxMap, op: OutPoint): TxOut
    requires Exists(m, op)
  {
    m[op.txid].vout[op.vout]
  }

  /** The input spends an output of the script. */
  predicate SpendsFrom(script: Script, vin: Vin) {
    vin.prevout.Some? && vin.prevout.value.scriptpubkey == script
  }

  function Source(vin: Vin): OutPoint {
    OutPoint(vin.txid, vin.vout)
  }

  /** Every spent output of the script belongs to a transaction of `all`, which agrees on script and value. */
  ghost predicate Closed(script: Script, m: TxMap, all: TxMap) {
    forall k, i :: k in m && 0 <= i < |m[k].vin| && SpendsFrom(script, m[k].vin[i]) ==>
      Exists(all, Source(m[k].vin[i])) && OutputAt(all, Source(m[k].vin[i])) == m[k].vin[i].prevout.value
  }

  /** No output of the script is spent twice. */
  ghost predicate NoDoubleSpend(script: Script, m: TxMap) {
    forall k, i, l, j :: k in m && l in m && 0 <= i < |m[k].vin| && 0 <= j < |m[l].vin|
      && SpendsFrom(script, m[k].vin[i]) && SpendsFrom(script, m[l].vin[j]) && Source(m[k].vin[i]) == Source(m[l].vin[j])
      ==> k == l && i == j
  }

  ghost function OwnedBy(script: Script, txid: Txid, vout: seq<TxOut>): set<OutPoint> {
    set i | 0 <= i < |vout| && vout[i].scriptpubkey == script :: OutPoint(txid, i)
  }

  ghost function SpentIn(script: Script, vin: seq<Vin>): set<OutPoint> {
    set i | 0 <= i < |vin| && SpendsFrom(script, vin[i]) :: Source(vin[i])
  }

  /** Outputs that pay to the script, and those among them that a transaction of the map spends. */
  ghost function Owned(script: Script, m: TxMap): set<OutPoint> {
    set k, i | k in m && 0 <= i < |m[k].vout| && m[k].vout[i].scriptpubkey == script :: OutPoint(k, i)
  }

  ghost function SpentSet(script: Script, m: TxMap): set<OutPoint> {
    set k, i | k in m && 0 <= i < |m[k].vin| && SpendsFrom(script, m[k].vin[i]) :: Source(m[k].vin[i])
  }

  ghost function Utxos(script: Script, m: TxMap): set<OutPoint> {
    Owned(script, m) - SpentSet(script, m)
  }

  ghost function ValueOf(all: TxMap, op: OutPoint): nat {
    if Exists(all, op) then OutputAt(all, op).value else 0
  }

  /** Total value of a set of outputs. */
  ghost function Worth(all: TxMap, ops: set<OutPoint>): nat
    decreases |ops|
  {
    if ops == {} then 0 else var op :| op in ops; Worth(all, ops - {op}) + ValueOf(all, op)
  }

  lemma {:induction false} WorthWithout(all: TxMap, ops: set<OutPoint>, op: OutPoint)
    requires op in ops
    ensures Worth(all, ops) == Worth(all, ops - {op}) + ValueOf(all, op)
    decreases |ops|
  {
    var c :| c in ops && Worth(all, ops) == Worth(all, ops - {c}) + ValueOf(all, c);
    if c != op {
      WorthWithout(all, ops - {c}, op);
      WorthWithout(all, ops - {op}, c);
      assert ops - {c} - {op} == ops - {op} - {c};
    }
  }

  lemma WorthInsert(all: TxMap, ops: set<OutPoint>, op: OutPoint)
    requires op !in ops
    ensures Worth(all, ops + {op}) == Worth(all, ops) + ValueOf(all, op)
  {
    WorthWithout(all, ops + {op}, op);
    assert ops + {op} - {op} == ops;
  }

  lemma {:induction false} WorthUnion(all: TxMap, a: set<OutPoint>, b: set<OutPoint>)
    requires a !! b
    ensures Worth(all, a + b) == Worth(all, a) + Worth(all, b)
    decreases |b|
  {
    if b == {} {
      assert a + b == a;
    } else {
      var op :| op in b;
      WorthUnion(all, a, b - {op});
      WorthWithout(all, b, op);
      WorthWithout(all, a + b, op);
      assert a + b - {op} == a + (b - {op});
    }
  }

  /** The funded sum of one transaction is the worth of its outputs to the script. */
  lemma {:induction false} FundedIsWorth(script: Script, all: TxMap, k: Txid, n: nat)
    requires k in all && n <= |all[k].vout|
    ensures FundedBy(script, all[k].vout[..n]) == Worth(all, OwnedBy(script, k, all[k].vout[..n]))
  {
    var vout := all[k].vout;
    if n == 0 {
      assert OwnedBy(script, k, vout[..0]) == {};
    } else {
      FundedIsWorth(script, all, k, n - 1);
      assert vout[..n][..n - 1] == vout[..n - 1];
      var before := OwnedBy(script, k, vout[..n - 1]);
      var op := OutPoint(k, n - 1);
      if vout[n - 1].scriptpubkey == script {
        assert OwnedBy(script, k, vout[..n]) == before + {op};
        WorthInsert(all, before, op);
      } else {
        assert OwnedBy(script, k, vout[..n]) == before;
      }
    }
  }

  /** The spent sum of one transaction is the worth of the outputs it spends. */
  lemma {:induction false} SpentIsWorth(script: Script, all: TxMap, vin: seq<Vin>)
    requires forall i :: 0 <= i < |vin| && SpendsFrom(script, vin[i]) ==> ValueOf(all, Source(vin[i])) == vin[i].prevout.value.value
    requires forall i, j :: 0 <= i < j < |vin| && SpendsFrom(script, vin[i]) && SpendsFrom(script, vin[j]) ==> Source(vin[i]) != Source(vin[j])
    ensures SpentBy(script, vin) == Worth(all, SpentIn(script, vin))
  {
    if vin == [] {
      assert SpentIn(script, vin) == {};
    } else {
      var n := |vin| - 1;
      SpentIsWorth(script, all, vin[..n]);
      var before := SpentIn(script, vin[..n]);
      if SpendsFrom(script, vin[n]) {
        assert SpentIn(script, vin) == before + {Source(vin[n])};
        WorthInsert(all, before, Source(vin[n]));
      } else {
        assert SpentIn(script, vin) == before;
      }
    }
  }

  lemma OwnedSplit(script: Script, m: TxMap, k: Txid)
    requires k in m
    ensures Owned(script, m) == Owned(script, m - {k}) + OwnedBy(script, k, m[k].vout)
    ensures Owned(script, m - {k}) !! OwnedBy(script, k, m[k].vout)
  {
  }

  lemma SpentSplit(script: Script, m: TxMap, k: Txid)
    requires k in m && NoDoubleSpend(script, m)
    ensures SpentSet(script, m) == SpentSet(script, m - {k}) + SpentIn(script, m[k].vin)
    ensures SpentSet(script, m - {k}) !! SpentIn(script, m[k].vin)
  {
    var rest := m - {k};
    forall op | op in SpentSet(script, m) ensures op in SpentSet(script, rest) + SpentIn(script, m[k].vin) {
      var l, i :| l in m && 0 <= i < |m[l].vin| && SpendsFrom(script, m[l].vin[i]) && op == Source(m[l].vin[i]);
      assert l != k ==> l in rest && rest[l].vin[i] == m[l].vin[i];
    }
    forall op | op in SpentSet(script, rest) ensures op in SpentSet(script, m) {
      var l, i :| l in rest && 0 <= i < |rest[l].vin| && SpendsFrom(script, rest[l].vin[i]) && op == Source(rest[l].vin[i]);
      assert m[l].vin[i] == rest[l].vin[i];
    }
    forall op | op in SpentIn(script, m[k].vin) ensures op in SpentSet(script, m) {
      var i :| 0 <= i < |m[k].vin| && SpendsFrom(script, m[k].vin[i]) && op == Source(m[k].vin[i]);
    }
  }

  /** The recomputed sums over a part of a closed map are the worths of its owned and of its spent outputs. */
  lemma {:induction false} SumsAreWorths(script: Script, m: TxMap, all: TxMap)
    requires Closed(script, m, all) && NoDoubleSpend(script, m)
    requires forall k :: k in m ==> k in all && all[k] == m[k]
    ensures var b := Recomputed(script, m);
            && b.mempool.funded + b.confirmed.funded == Worth(all, Owned(script, m))
            && b.mempool.spent + b.confirmed.spent == Worth(all, SpentSet(script, m))
    decreases |m|
  {
    if m == map[] {
      assert Owned(script, m) == {} && SpentSet(script, m) == {};
    } else {
      var k :| k in m;
      MapMinus(m, k);
      SumsAreWorths(script, m - {k}, all);
      RecomputedWithout(script, m, k);
      assert all[k].vout[..|all[k].vout|] == m[k].vout;
      FundedIsWorth(script, all, k, |all[k].vout|);
      SpentIsWorth(script, all, m[k].vin);
      OwnedSplit(script, m, k);
      SpentSplit(script, m, k);
      WorthUnion(all, Owned(script, m - {k}), OwnedBy(script, k, m[k].vout));
      WorthUnion(all, SpentSet(script, m - {k}), SpentIn(script, m[k].vin));
    }
  }

  /**
   * Each of the four sums by itself: the confirmed half is the worth of the outputs owned, and of those spent, by the
   * confirmed transactions; the mempool half that of the unconfirmed ones.
   */
  lemma HalvesAreWorths(script: Script, m: TxMap)
    requires Closed(script, m, m) && NoDoubleSpend(script, m)
    ensures var b := Recomputed(script, m);
            && b.confirmed.funded == Worth(m, Owned(script, Part(m, true)))
            && b.confirmed.spent == Worth(m, SpentSet(script, Part(m, true)))
            && b.mempool.funded == Worth(m, Owned(script, Part(m, false)))
            && b.mempool.spent == Worth(m, SpentSet(script, Part(m, false)))
  {
    hide Worth, Recomputed, Owned, SpentSet;
    HalvesByStatus(script, m);
    SumsAreWorths(script, Part(m, true), m);
    SumsAreWorths(script, Part(m, false), m);
  }

  /** The counters of a tracker are those worths, modulo 2^64. */
  lemma TrackerHalves(tracker: Tracker)
    requires tracker.Valid()
    requires Closed(tracker.scriptpubkey, tracker.transactions, tracker.transactions)
    requires NoDoubleSpend(tracker.scriptpubkey, tracker.transactions)
    ensures var script, m, b := tracker.scriptpubkey, tracker.transactions, tracker.balance;
            && b.confirmed.funded == Worth(m, Owned(script, Part(m, true))) % 0x1_0000_0000_0000_0000
            && b.confirmed.spent == Worth(m, SpentSet(script, Part(m, true))) % 0x1_0000_0000_0000_0000
            && b.mempool.funded == Worth(m, Owned(script, Part(m, false))) % 0x1_0000_0000_0000_0000
            && b.mempool.spent == Worth(m, SpentSet(script, Part(m, false))) % 0x1_0000_0000_0000_0000
  {
    hide Worth, Recomputed, Owned, SpentSet, Closed, NoDoubleSpend, Part;
    HalvesAreWorths(tracker.scriptpubkey, tracker.transactions);
  }

  /**
   * The balance is the unspent value: for a tracker whose map is closed under the spent outputs of its script
   * and free of double spends, funded minus spent is the worth of the unspent outputs, hence not negative.
   */
  lemma BalanceIsUnspentValue(script: Script, m: TxMap)
    requires Closed(script, m, m) && NoDoubleSpend(script, m)
    ensures var b := Recomputed(script, m);
            b.mempool.funded + b.confirmed.funded - b.mempool.spent - b.confirmed.spent == Worth(m, Utxos(script, m))
  {
    SumsAreWorths(script, m, m);
    forall op | op in SpentSet(script, m) ensures op in Owned(script, m) {
    }
    WorthUnion(m, Utxos(script, m), SpentSet(script, m));
    assert Utxos(script, m) + SpentSet(script, m) == Owned(script, m);
  }

  /** The reported total is the unspent value when the counters fit, exactly when that value fits an `i64`. */
  lemma ReportedBalanceIff(script: Script, m: TxMap)
    requires Closed(script, m, m) && NoDoubleSpend(script, m)
    requires Worth(m, Owned(script, m)) < 0x1_0000_0000_0000_0000
    ensures Get(Total(Wrap(Recomputed(script, m)))) == Worth(m, Utxos(script, m)) <==> Worth(m, Utxos(script, m)) < 0x8000_0000_0000_0000
  {
    hide Get, Total, Wrap, Recomputed, Closed, NoDoubleSpend, Worth;
    SumsAreWorths(script, m, m);
    BalanceIsUnspentValue(script, m);
    TotalGetExact(Recomputed(script, m));
  }

  /** The balance a tracker reports is the unspent value of its script, exactly when that value fits an `i64`. */
  lemma TrackerReportsUnspentIff(tracker: Tracker)
    requires tracker.Valid()
    requires Closed(tracker.scriptpubkey, tracker.transactions, tracker.transactions)
    requires NoDoubleSpend(tracker.scriptpubkey, tracker.transactions)
    requires Worth(tracker.transactions, Owned(tracker.scriptpubkey, tracker.transactions)) < 0x1_0000_0000_0000_0000
    ensures Get(Total(tracker.balance)) == Worth(tracker.transactions, Utxos(tracker.scriptpubkey, tracker.transactions))
            <==> Worth(tracker.transactions, Utxos(tracker.scriptpubkey, tracker.transactions)) < 0x8000_0000_0000_0000
  {
    hide Get, Total, Wrap, Recomputed, Closed, NoDoubleSpend, Worth, Fits;
    ReportedBalanceIff(tracker.scriptpubkey, tracker.transactions);
  }
}
