/** Balance counters of one script: exact sums over a transaction map, and the wrapping 64-bit counters that track them. */
module Balances {
  import opened Types

  datatype Balance = Balance(funded: nat, spent: nat)

  datatype Balances = Balances(mempool: Balance, confirmed: Balance)

  const ZERO := Balances(Balance(0, 0), Balance(0, 0))

  datatype Side = Funded | Spent

  function PlusOne(a: Balance, b: Balance): Balance {
    Balance(a.funded + b.funded, a.spent + b.spent)
  }

  function Plus(a: Balances, b: Balances): Balances {
    Balances(PlusOne(a.mempool, b.mempool), PlusOne(a.confirmed, b.confirmed))
  }

  function Counter(b: Balances, confirmed: bool, side: Side): nat {
    var half := if confirmed then b.confirmed else b.mempool;
    if side == Funded then half.funded else half.spent
  }

  function SetCounter(b: Balances, confirmed: bool, side: Side, v: nat): Balances {
    if confirmed then
      b.(confirmed := if side == Funded then b.confirmed.(funded := v) else b.confirmed.(spent := v))
    else
      b.(mempool := if side == Funded then b.mempool.(funded := v) else b.mempool.(spent := v))
  }

  function Bump(b: Balances, confirmed: bool, side: Side, v: nat): Balances {
    SetCounter(b, confirmed, side, Counter(b, confirmed, side) + v)
  }

  /** Value of the outputs of `script` that the inputs spend. */
  function SpentBy(script: Script, vin: seq<Vin>): nat {
    if vin == [] then 0 else SpentBy(script, vin[..|vin| - 1]) + SpentValue(script, vin[|vin| - 1])
  }

  function SpentValue(script: Script, vin: Vin): nat {
    if vin.prevout.Some? && vin.prevout.value.scriptpubkey == script then vin.prevout.value.value else 0
  }

  /** Value of the outputs that pay to `script`. */
  function FundedBy(script: Script, vout: seq<TxOut>): nat {
    if vout == [] then 0 else FundedBy(script, vout[..|vout| - 1]) + FundedValue(script, vout[|vout| - 1])
  }

  function FundedValue(script: Script, out: TxOut): nat {
    if out.scriptpubkey == script then out.value else 0
  }

  function Single(confirmed: bool, funded: nat, spent: nat): Balances {
    if confirmed then Balances(Balance(0, 0), Balance(funded, spent)) else Balances(Balance(funded, spent), Balance(0, 0))
  }

  /** What one transaction adds to the four sums. */
  function Effect(script: Script, tx: Tx): Balances {
    Single(tx.status.confirmed, FundedBy(script, tx.vout), SpentBy(script, tx.vin))
  }

  lemma SingleAsBumps(b: Balances, confirmed: bool, funded: nat, spent: nat)
    ensures Plus(b, Single(confirmed, funded, spent)) == Bump(Bump(b, confirmed, Spent, spent), confirmed, Funded, funded)
    ensures Plus(b, Single(confirmed, funded, spent)) == Bump(Bump(b, confirmed, Funded, funded), confirmed, Spent, spent)
  {
  }

  ghost function SomeKey(m: TxMap): (k: Txid)
    requires m != map[]
    ensures k in m
  {
    var k :| k in m; k
  }

  lemma MapMinus(m: TxMap, k: Txid)
    requires k in m
    ensures |m - {k}| < |m|
  {
    assert (m - {k}).Keys == m.Keys - {k};
    assert |m.Keys - {k}| < |m.Keys|;
  }

  ghost function SumOver(m: TxMap, effect: Tx -> Balances): Balances
    decreases |m|
  {
    if m == map[] then ZERO
    else
      var k := SomeKey(m);
      MapMinus(m, k);
      Plus(SumOver(m - {k}, effect), effect(m[k]))
  }

  lemma PlusSwap(a: Balances, b: Balances, c: Balances)
    ensures Plus(Plus(a, b), c) == Plus(Plus(a, c), b)
  {
  }

  /** Any transaction may be taken out first: the sums do not depend on the order of the map. */
  lemma {:induction false} SumWithout(m: TxMap, effect: Tx -> Balances, k: Txid)
    requires k in m
    ensures SumOver(m, effect) == Plus(SumOver(m - {k}, effect), effect(m[k]))
    decreases |m|
  {
    var c := SomeKey(m);
    if c != k {
      MapMinus(m, c);
      MapMinus(m, k);
      SumWithout(m - {c}, effect, k);
      SumWithout(m - {k}, effect, c);
      assert m - {c} - {k} == m - {k} - {c};
      PlusSwap(SumOver(m - {c} - {k}, effect), effect(m[k]), effect(m[c]));
    }
  }

  /** The balance recomputed from scratch over a transaction map. */
  ghost function Recomputed(script: Script, m: TxMap): Balances {
    SumOver(m, tx => Effect(script, tx))
  }

  lemma RecomputedWithout(script: Script, m: TxMap, k: Txid)
    requires k in m
    ensures Recomputed(script, m) == Plus(Recomputed(script, m - {k}), Effect(script, m[k]))
  {
    SumWithout(m, tx => Effect(script, tx), k);
  }

  lemma RecomputedInsert(script: Script, m: TxMap, tx: Tx)
    ensures Recomputed(script, m[tx.txid := tx]) == Plus(Recomputed(script, m - {tx.txid}), Effect(script, tx))
  {
    var n := m[tx.txid := tx];
    RecomputedWithout(script, n, tx.txid);
    assert n - {tx.txid} == m - {tx.txid};
  }

  /** The transactions of a map with the given confirmation. */
  ghost function Part(m: TxMap, confirmed: bool): TxMap {
    map k | k in m && m[k].status.confirmed == confirmed :: m[k]
  }

  lemma PartWithout(m: TxMap, k: Txid)
    requires k in m
    ensures var c := m[k].status.confirmed;
            && Part(m, !c) == Part(m - {k}, !c)
            && k in Part(m, c) && Part(m, c)[k] == m[k] && Part(m, c) - {k} == Part(m - {k}, c)
  {
  }

  lemma EmptyParts(script: Script)
    ensures Part(map[], true) == map[] && Part(map[], false) == map[] && Recomputed(script, map[]) == ZERO
  {
  }

  /** One half of some sums, and nothing in the other half. */
  predicate ConfirmedHalf(half: Balances, sums: Balances) {
    && half.confirmed.funded == sums.confirmed.funded && half.confirmed.spent == sums.confirmed.spent
    && half.mempool.funded == 0 && half.mempool.spent == 0
  }

  predicate MempoolHalf(half: Balances, sums: Balances) {
    && half.mempool.funded == sums.mempool.funded && half.mempool.spent == sums.mempool.spent
    && half.confirmed.funded == 0 && half.confirmed.spent == 0
  }

  /**
   * The confirmed half of the sums is that of the confirmed transactions, the mempool half that of the others, and
   * neither half holds anything else.
   */
  lemma {:induction false} HalvesByStatus(script: Script, m: TxMap)
    ensures ConfirmedHalf(Recomputed(script, Part(m, true)), Recomputed(script, m))
    ensures MempoolHalf(Recomputed(script, Part(m, false)), Recomputed(script, m))
    decreases |m|
  {
    hide Recomputed, Part, ConfirmedHalf, MempoolHalf, Plus, Single, FundedBy, SpentBy;
    if m == map[] {
      EmptyHalves(script);
    } else {
      var k :| k in m;
      MapMinus(m, k);
      HalvesByStatus(script, m - {k});
      RecomputedWithout(script, m, k);
      PartSums(script, m, k);
      var confirmed, mempool := Recomputed(script, Part(m - {k}, true)), Recomputed(script, Part(m - {k}, false));
      var funded, spent := FundedBy(script, m[k].vout), SpentBy(script, m[k].vin);
      if m[k].status.confirmed {
        ConfirmedHalfGrows(confirmed, Recomputed(script, m - {k}), funded, spent);
        MempoolHalfStays(mempool, Recomputed(script, m - {k}), funded, spent);
      } else {
        ConfirmedHalfStays(confirmed, Recomputed(script, m - {k}), funded, spent);
        MempoolHalfGrows(mempool, Recomputed(script, m - {k}), funded, spent);
      }
    }
  }

  lemma EmptyHalves(script: Script)
    ensures ConfirmedHalf(Recomputed(script, Part(map[], true)), Recomputed(script, map[]))
    ensures MempoolHalf(Recomputed(script, Part(map[], false)), Recomputed(script, map[]))
  {
    EmptyParts(script);
  }

  lemma PartSums(script: Script, m: TxMap, k: Txid)
    requires k in m
    ensures var c := m[k].status.confirmed;
            && Recomputed(script, Part(m, c)) == Plus(Recomputed(script, Part(m - {k}, c)), Effect(script, m[k]))
            && Recomputed(script, Part(m, !c)) == Recomputed(script, Part(m - {k}, !c))
  {
    hide Recomputed, Part, Effect;
    PartWithout(m, k);
    RecomputedWithout(script, Part(m, m[k].status.confirmed), k);
  }

  /** Confirmed amounts change the confirmed half only, others the mempool half. */
  lemma ConfirmedHalfGrows(half: Balances, sums: Balances, funded: nat, spent: nat)
    requires ConfirmedHalf(half, sums)
    ensures ConfirmedHalf(Plus(half, Single(true, funded, spent)), Plus(sums, Single(true, funded, spent)))
  {
  }

  lemma ConfirmedHalfStays(half: Balances, sums: Balances, funded: nat, spent: nat)
    requires ConfirmedHalf(half, sums)
    ensures ConfirmedHalf(half, Plus(sums, Single(false, funded, spent)))
  {
  }

  lemma MempoolHalfGrows(half: Balances, sums: Balances, funded: nat, spent: nat)
    requires MempoolHalf(half, sums)
    ensures MempoolHalf(Plus(half, Single(false, funded, spent)), Plus(sums, Single(false, funded, spent)))
  {
  }

  lemma MempoolHalfStays(half: Balances, sums: Balances, funded: nat, spent: nat)
    requires MempoolHalf(half, sums)
    ensures MempoolHalf(half, Plus(sums, Single(true, funded, spent)))
  {
  }

  /** Adding a transaction that the map does not hold yet. */
  lemma InsertedSums(script: Script, m: TxMap, tx: Tx)
    requires tx.txid !in m
    ensures Recomputed(script, m[tx.txid := tx]) ==
            Bump(Bump(Recomputed(script, m), tx.status.confirmed, Spent, SpentBy(script, tx.vin)),
                 tx.status.confirmed, Funded, FundedBy(script, tx.vout))
  {
    assert m - {tx.txid} == m;
    RecomputedInsert(script, m, tx);
    SingleAsBumps(Recomputed(script, m), tx.status.confirmed, FundedBy(script, tx.vout), SpentBy(script, tx.vin));
  }

  /** Removing a transaction that the map holds. */
  lemma RemovedSums(script: Script, m: TxMap, k: Txid)
    requires k in m
    ensures Recomputed(script, m) ==
            Bump(Bump(Recomputed(script, m - {k}), m[k].status.confirmed, Funded, FundedBy(script, m[k].vout)),
                 m[k].status.confirmed, Spent, SpentBy(script, m[k].vin))
  {
    RecomputedWithout(script, m, k);
    SingleAsBumps(Recomputed(script, m - {k}), m[k].status.confirmed, FundedBy(script, m[k].vout), SpentBy(script, m[k].vin));
  }

  lemma BumpTwice(b: Balances, confirmed: bool, side: Side, v: nat, w: nat)
    ensures Bump(Bump(b, confirmed, side, v), confirmed, side, w) == Bump(b, confirmed, side, v + w)
  {
  }

  predicate FitsOne(b: Balance) {
    b.funded < U64_RANGE && b.spent < U64_RANGE
  }

  /** All four sums are representable in the source's `u64` counters. */
  predicate Fits(b: Balances) {
    FitsOne(b.mempool) && FitsOne(b.confirmed)
  }

  function WrapOne(b: Balance): Balance {
    Balance(b.funded % U64_RANGE, b.spent % U64_RANGE)
  }

  /** The counters modulo 2^64. */
  function Wrap(b: Balances): Balances {
    Balances(WrapOne(b.mempool), WrapOne(b.confirmed))
  }

  lemma ModAdd(a: nat, v: nat)
    ensures (a % U64_RANGE + v) % U64_RANGE == (a + v) % U64_RANGE
  {
    assert a + v == (a % U64_RANGE + v) + U64_RANGE * (a / U64_RANGE);
  }

  lemma ModSmall(a: nat)
    requires a < U64_RANGE
    ensures a % U64_RANGE == a
  {
  }

  lemma ModSub(a: nat, v: nat)
    requires v <= a
    ensures (a % U64_RANGE - v) % U64_RANGE == (a - v) % U64_RANGE
  {
    assert a - v == (a % U64_RANGE - v) + U64_RANGE * (a / U64_RANGE);
  }

  function WrappingAdd(b: Balances, confirmed: bool, side: Side, v: nat): Balances {
    SetCounter(b, confirmed, side, (Counter(b, confirmed, side) + v) % U64_RANGE)
  }

  function WrappingSub(b: Balances, confirmed: bool, side: Side, v: nat): Balances {
    SetCounter(b, confirmed, side, (Counter(b, confirmed, side) - v) % U64_RANGE)
  }

  lemma CounterAfterBump(b: Balances, confirmed: bool, side: Side, v: nat)
    ensures Counter(Bump(b, confirmed, side, v), confirmed, side) == Counter(b, confirmed, side) + v
  {
  }

  lemma WrapBump(b: Balances, confirmed: bool, side: Side, v: nat)
    ensures WrappingAdd(Wrap(b), confirmed, side, v) == Wrap(Bump(b, confirmed, side, v))
    ensures WrappingSub(Wrap(Bump(b, confirmed, side, v)), confirmed, side, v) == Wrap(b)
  {
    var x := Counter(b, confirmed, side);
    ModAdd(x, v);
    ModSub(x + v, v);
  }

  /** When the sums fit, a counter is exact, and an addition overflows exactly when the new sum does not fit. */
  lemma BumpFits(b: Balances, confirmed: bool, side: Side, v: nat)
    ensures Fits(b) ==> Counter(Wrap(b), confirmed, side) == Counter(b, confirmed, side)
    ensures Fits(Bump(b, confirmed, side, v)) <==> Fits(b) && Counter(b, confirmed, side) + v < U64_RANGE
  {
  }

  lemma SmallerBumpFits(b: Balances, confirmed: bool, side: Side, v: nat, w: nat)
    requires v <= w && Fits(Bump(b, confirmed, side, w))
    ensures Fits(Bump(b, confirmed, side, v))
  {
  }

  lemma BumpZero(b: Balances, confirmed: bool, side: Side)
    ensures Bump(b, confirmed, side, 0) == b
  {
  }

  /** `Balances::total`, with the source's 64-bit additions. */
  function Total(b: Balances): Balance {
    Balance((b.mempool.funded + b.confirmed.funded) % U64_RANGE, (b.mempool.spent + b.confirmed.spent) % U64_RANGE)
  }

  const I64_MIN: int := -0x8000_0000_0000_0000

  /** `as i64` on a `u64`. */
  function AsI64(x: nat): int {
    if x < 0x8000_0000_0000_0000 then x else x - U64_RANGE
  }

  /** Negation of an `i64`, whose minimum is its own negative. */
  function NegI64(x: int): int {
    if x == I64_MIN then I64_MIN else -x
  }

  /** `Balance::get`. */
  function Get(b: Balance): int {
    if b.funded >= b.spent then AsI64(b.funded - b.spent) else NegI64(AsI64(b.spent - b.funded))
  }

  /** `get` is the `i64` congruent to the difference, which is the difference itself exactly when an `i64` can hold it. */
  lemma GetExactIff(b: Balance)
    requires b.funded < 0x1_0000_0000_0000_0000 && b.spent < 0x1_0000_0000_0000_0000
    ensures -0x8000_0000_0000_0000 <= Get(b) < 0x8000_0000_0000_0000
    ensures var difference := b.funded - b.spent;
            Get(b) == difference || Get(b) == difference + 0x1_0000_0000_0000_0000 || Get(b) == difference - 0x1_0000_0000_0000_0000
    ensures Get(b) == b.funded - b.spent <==> -0x8000_0000_0000_0000 <= b.funded - b.spent < 0x8000_0000_0000_0000
  {
  }

  lemma TotalWraps(b: Balances)
    ensures Total(Wrap(b)) == WrapOne(PlusOne(b.mempool, b.confirmed))
  {
    ModAdd(b.mempool.funded, b.confirmed.funded % U64_RANGE);
    ModAdd(b.confirmed.funded, b.mempool.funded);
    ModAdd(b.mempool.spent, b.confirmed.spent % U64_RANGE);
    ModAdd(b.confirmed.spent, b.mempool.spent);
  }

  /** `total().get()` on counters that hold `Wrap(b)` is the exact balance when the exact totals fit. */
  lemma TotalGetExact(b: Balances)
    requires b.mempool.funded + b.confirmed.funded < 0x1_0000_0000_0000_0000
    requires b.mempool.spent + b.confirmed.spent < 0x1_0000_0000_0000_0000
    ensures Total(Wrap(b)) == PlusOne(b.mempool, b.confirmed)
    ensures Get(Total(Wrap(b))) == b.mempool.funded + b.confirmed.funded - b.mempool.spent - b.confirmed.spent
            <==> -0x8000_0000_0000_0000 <= b.mempool.funded + b.confirmed.funded - b.mempool.spent - b.confirmed.spent < 0x8000_0000_0000_0000
  {
    hide Total, Wrap, Get;
    TotalWraps(b);
    ModSmall(b.mempool.funded + b.confirmed.funded);
    ModSmall(b.mempool.spent + b.confirmed.spent);
    GetExactIff(PlusOne(b.mempool, b.confirmed));
  }

  lemma EffectTotal(script: Script, a: Tx, b: Tx)
    requires a.vin == b.vin && a.vout == b.vout
    ensures PlusOne(Effect(script, a).mempool, Effect(script, a).confirmed) ==
            PlusOne(Effect(script, b).mempool, Effect(script, b).confirmed)
  {
  }

  /** Re-adding a transaction whose confirmation status changed leaves the total where it was. */
  lemma StatusChangeKeepsTotal(script: Script, m: TxMap, k: Txid, status: TxStatus)
    requires k in m && m[k].txid == k
    ensures var n := m[k := m[k].(status := status)];
            Total(Wrap(Recomputed(script, n))) == Total(Wrap(Recomputed(script, m)))
  {
    hide Total, Wrap, Effect;
    var tx := m[k].(status := status);
    var n := m[k := tx];
    RecomputedWithout(script, m, k);
    RecomputedInsert(script, m, tx);
    EffectTotal(script, m[k], tx);
    TotalWraps(Recomputed(script, n));
    TotalWraps(Recomputed(script, m));
  }
}
