/** The per-address tracker: a transaction map, four running counters, and a queue for events that arrive while loading. */
module AddressTracker {
  import opened Types
  import opened TxOrder
  import opened EventLog
  import opened Balances

  /** The part of a tracker that events act on. */
  datatype View = View(transactions: TxMap, queue: seq<Event>, loading: bool)

  function Receive(v: View, e: Event, realtime: bool): View {
    if realtime && v.loading then v.(queue := v.queue + [e])
    else v.(transactions := Apply(v.transactions, e))
  }

  /** What subscribers of the wallet are told of an event: of a removal, the same as of a confirmation. */
  function Announcement(spk: Script, e: Event): Event {
    if e.Mempool? then Mempool(spk, e.tx) else Confirmed(spk, e.tx)
  }

  function Announcements(spk: Script, es: seq<Event>): seq<Event> {
    seq(|es|, i requires 0 <= i < |es| => Announcement(spk, es[i]))
  }

  datatype State = State(scriptpubkey: Script, transactions: seq<Tx>, balance: Balances)

  /** Some transaction map passed through while applying `es` has sums beyond the 64-bit counters. */
  ghost predicate Overflows(script: Script, m: TxMap, es: seq<Event>) {
    exists i :: 0 <= i <= |es| && !Fits(Recomputed(script, ApplyAll(m, es[..i])))
  }

  class Tracker {
    const scriptpubkey: Script
    var transactions: TxMap
    var balance: Balances
    var queue: seq<Event>
    var loading: bool

    /** Events broadcast to the subscribers of the wallet, oldest first. */
    var announced: seq<Event>

    /** Set once an addition or subtraction has wrapped; a build with overflow checks panics at that point. */
    var overflowed: bool

    ghost predicate Valid()
      reads this
    {
      && Keyed(transactions)
      && balance == Wrap(Recomputed(scriptpubkey, transactions))
      && (!overflowed ==> Fits(Recomputed(scriptpubkey, transactions)))
    }

    ghost function Model(): View
      reads this
    {
      View(transactions, queue, loading)
    }

    constructor (scriptpubkey: Script)
      ensures Valid() && !overflowed && announced == []
      ensures this.scriptpubkey == scriptpubkey && Model() == View(map[], [], true)
    {
      this.scriptpubkey := scriptpubkey;
      transactions := map[];
      balance := ZERO;
      queue := [];
      loading := true;
      announced := [];
      overflowed := false;
    }

    /** Rebuilding a tracker from a saved state. */
    constructor From(state: State)
      ensures Valid() && announced == []
      ensures forall k :: Lookup(transactions, k) == WithId(state.transactions, k)
      ensures scriptpubkey == state.scriptpubkey && Model() == View(MapOf(state.transactions), [], true)
    {
      scriptpubkey := state.scriptpubkey;
      transactions := map[];
      balance := ZERO;
      queue := [];
      loading := true;
      announced := [];
      overflowed := false;
      new;
      for i := 0 to |state.transactions|
        invariant Valid() && queue == [] && loading && announced == []
        invariant transactions == MapOf(state.transactions[..i])
      {
        AddTransaction(state.transactions[i]);
        assert state.transactions[..i + 1][..i] == state.transactions[..i];
      }
      assert state.transactions[..|state.transactions|] == state.transactions;
      forall k ensures Lookup(transactions, k) == WithId(state.transactions, k) {
        MapOfKeepsLast(state.transactions, k);
      }
    }

    /** The state: all transactions in chronological order, and the counters. */
    method GetState() returns (state: State)
      requires Valid() && ProperMap(transactions)
      ensures IsStateOf(state.transactions, transactions) && Chronological(state.transactions)
      ensures state.scriptpubkey == scriptpubkey && state.balance == balance
    {
      var collected: seq<Tx> := [];
      var rest := transactions.Keys;
      while rest != {}
        invariant rest <= transactions.Keys
        invariant DistinctIds(collected)
        invariant forall i :: 0 <= i < |collected| ==>
          collected[i].txid in transactions && collected[i].txid !in rest && transactions[collected[i].txid] == collected[i]
        invariant forall k :: k in transactions && k !in rest ==> transactions[k] in collected
        decreases |rest|
      {
        var k :| k in rest;
        collected := collected + [transactions[k]];
        rest := rest - {k};
      }
      SortGivesState(collected, transactions);
      StateIffChronological(SortByTime(collected), transactions);
      state := State(scriptpubkey, SortByTime(collected), balance);
    }

    method ProcessEvent(event: Event, realtime: bool)
      requires Valid()
      modifies this
      ensures Valid() && Model() == Receive(old(Model()), event, realtime)
      ensures overflowed <==> old(overflowed) || !Fits(Recomputed(scriptpubkey, transactions))
      ensures realtime && old(loading) ==> announced == old(announced)
      ensures !(realtime && old(loading)) ==>
                announced == old(announced) + [if event.Mempool? then Mempool(scriptpubkey, event.tx) else Confirmed(scriptpubkey, event.tx)]
    {
      if realtime && loading {
        queue := queue + [event];
        return;
      }
      match event {
        case Mempool(_, tx) =>
          AddTransaction(tx);
          announced := announced + [Mempool(scriptpubkey, tx)];
        case Confirmed(_, tx) =>
          AddTransaction(tx);
          announced := announced + [Confirmed(scriptpubkey, tx)];
        case Removed(_, tx) =>
          RemoveTransaction(tx.txid);
          announced := announced + [Confirmed(scriptpubkey, tx)];
      }
    }

    method SetLoading(loading: bool)
      requires Valid()
      modifies this
      ensures Valid() && this.loading == loading
      ensures old(this.loading) && !loading ==>
                transactions == ApplyAll(old(transactions), old(queue)) && queue == []
      ensures old(this.loading) && !loading ==>
                (overflowed <==> old(overflowed) || Overflows(scriptpubkey, old(transactions), old(queue)))
      ensures !(old(this.loading) && !loading) ==>
                transactions == old(transactions) && queue == old(queue)
                && balance == old(balance) && overflowed == old(overflowed)
      ensures announced == old(announced) + if old(this.loading) && !loading then Announcements(scriptpubkey, old(queue)) else []
    {
      if this.loading && !loading {
        DrainQueue();
      }
      this.loading := loading;
    }

    method DrainQueue()
      requires Valid()
      modifies this
      ensures Valid() && Model() == View(ApplyAll(old(transactions), old(queue)), [], old(loading))
      ensures overflowed <==> old(overflowed) || Overflows(scriptpubkey, old(transactions), old(queue))
      ensures announced == old(announced) + Announcements(scriptpubkey, old(queue))
    {
      hide Wrap, Fits, Recomputed, Overflows;
      ghost var all, start := queue, transactions;
      OverflowsNone(scriptpubkey, start);
      ghost var done := 0;
      assert all[..0] == [];
      while queue != []
        invariant Valid() && loading == old(loading)
        invariant 0 <= done <= |all| && queue == all[done..]
        invariant transactions == ApplyAll(start, all[..done])
        invariant announced == old(announced) + Announcements(scriptpubkey, all[..done])
        invariant overflowed <==> old(overflowed) || Overflows(scriptpubkey, start, all[..done])
        decreases |queue|
      {
        var event := queue[0];
        queue := queue[1..];
        ProcessEvent(event, false);
        assert all[..done + 1][..done] == all[..done];
        assert Announcements(scriptpubkey, all[..done + 1]) == Announcements(scriptpubkey, all[..done]) + [Announcement(scriptpubkey, event)];
        OverflowsStep(scriptpubkey, start, all, done);
        done := done + 1;
      }
      assert all[..done] == all;
    }

    method AddTransaction(tx: Tx)
      requires Valid()
      modifies this
      ensures Valid() && Model() == old(Model()).(transactions := old(transactions)[tx.txid := tx])
      ensures announced == old(announced)
      ensures overflowed <==> old(overflowed) || !Fits(Recomputed(scriptpubkey, transactions))
    {
      hide Wrap, Recomputed, Fits, Bump, SpentBy, FundedBy;
      if tx.txid in transactions {
        RemoveTransaction(tx.txid);
      }
      ghost var before := Recomputed(scriptpubkey, transactions);
      ghost var between := Bump(before, tx.status.confirmed, Spent, SpentBy(scriptpubkey, tx.vin));
      InsertedSums(scriptpubkey, transactions, tx);
      BumpFits(between, tx.status.confirmed, Funded, FundedBy(scriptpubkey, tx.vout));
      AddInputs(tx, before);
      AddOutputs(tx, between);
      transactions := transactions[tx.txid := tx];
    }

    method AddInputs(tx: Tx, ghost before: Balances)
      requires balance == Wrap(before) && (!overflowed ==> Fits(before))
      modifies this`balance, this`overflowed
      ensures var after := Bump(before, tx.status.confirmed, Spent, SpentBy(scriptpubkey, tx.vin));
              balance == Wrap(after) && (overflowed <==> old(overflowed) || !Fits(after))
    {
      hide Wrap;
      for i := 0 to |tx.vin|
        invariant var sum := Bump(before, tx.status.confirmed, Spent, SpentBy(scriptpubkey, tx.vin[..i]));
                  balance == Wrap(sum) && (overflowed <==> old(overflowed) || !Fits(sum))
      {
        ghost var sum := Bump(before, tx.status.confirmed, Spent, SpentBy(scriptpubkey, tx.vin[..i]));
        var vin := tx.vin[i];
        assert tx.vin[..i + 1][..i] == tx.vin[..i];
        if vin.prevout.Some? && vin.prevout.value.scriptpubkey == scriptpubkey {
          BumpTwice(before, tx.status.confirmed, Spent, SpentBy(scriptpubkey, tx.vin[..i]), vin.prevout.value.value);
          Credit(tx.status.confirmed, Spent, vin.prevout.value.value, sum);
        }
      }
      assert tx.vin[..|tx.vin|] == tx.vin;
    }

    method AddOutputs(tx: Tx, ghost before: Balances)
      requires balance == Wrap(before) && (!overflowed ==> Fits(before))
      modifies this`balance, this`overflowed
      ensures var after := Bump(before, tx.status.confirmed, Funded, FundedBy(scriptpubkey, tx.vout));
              balance == Wrap(after) && (overflowed <==> old(overflowed) || !Fits(after))
    {
      hide Wrap;
      for i := 0 to |tx.vout|
        invariant var sum := Bump(before, tx.status.confirmed, Funded, FundedBy(scriptpubkey, tx.vout[..i]));
                  balance == Wrap(sum) && (overflowed <==> old(overflowed) || !Fits(sum))
      {
        ghost var sum := Bump(before, tx.status.confirmed, Funded, FundedBy(scriptpubkey, tx.vout[..i]));
        var out := tx.vout[i];
        assert tx.vout[..i + 1][..i] == tx.vout[..i];
        if out.scriptpubkey == scriptpubkey {
          BumpTwice(before, tx.status.confirmed, Funded, FundedBy(scriptpubkey, tx.vout[..i]), out.value);
          Credit(tx.status.confirmed, Funded, out.value, sum);
        }
      }
      assert tx.vout[..|tx.vout|] == tx.vout;
    }

    /** One `+=` on one of the four counters. */
    method Credit(confirmed: bool, side: Side, v: U64, ghost sum: Balances)
      requires balance == Wrap(sum) && (!overflowed ==> Fits(sum))
      modifies this`balance, this`overflowed
      ensures balance == Wrap(Bump(sum, confirmed, side, v))
      ensures overflowed <==> old(overflowed) || !Fits(Bump(sum, confirmed, side, v))
    {
      hide Wrap, Fits, Bump;
      WrapBump(sum, confirmed, side, v);
      BumpFits(sum, confirmed, side, v);
      overflowed := overflowed || Counter(balance, confirmed, side) + v >= U64_RANGE;
      balance := WrappingAdd(balance, confirmed, side, v);
    }

    /** One `-=` on one of the four counters; it underflows only after an earlier overflow. */
    method Debit(confirmed: bool, side: Side, v: U64, ghost left: Balances)
      requires balance == Wrap(Bump(left, confirmed, side, v)) && (!overflowed ==> Fits(Bump(left, confirmed, side, v)))
      modifies this`balance, this`overflowed
      ensures balance == Wrap(left) && overflowed == old(overflowed)
    {
      hide Wrap, Fits, Bump;
      WrapBump(left, confirmed, side, v);
      BumpFits(Bump(left, confirmed, side, v), confirmed, side, 0);
      CounterAfterBump(left, confirmed, side, v);
      overflowed := overflowed || Counter(balance, confirmed, side) < v;
      balance := WrappingSub(balance, confirmed, side, v);
    }

    method RemoveTransaction(txid: Txid)
      requires Valid()
      modifies this
      ensures Valid() && Model() == old(Model()).(transactions := old(transactions) - {txid})
      ensures announced == old(announced)
      ensures overflowed == old(overflowed)
    {
      hide Wrap;
      if txid in transactions {
        var tx := transactions[txid];
        ghost var after := Recomputed(scriptpubkey, transactions - {txid});
        RemovedSums(scriptpubkey, transactions, txid);
        transactions := transactions - {txid};
        RemoveInputs(tx, Bump(after, tx.status.confirmed, Funded, FundedBy(scriptpubkey, tx.vout)));
        RemoveOutputs(tx, after);
      } else {
        assert transactions - {txid} == transactions;
      }
    }

    method RemoveInputs(tx: Tx, ghost after: Balances)
      requires var before := Bump(after, tx.status.confirmed, Spent, SpentBy(scriptpubkey, tx.vin));
               balance == Wrap(before) && (!overflowed ==> Fits(before))
      modifies this`balance, this`overflowed
      ensures balance == Wrap(after) && overflowed == old(overflowed)
    {
      hide Wrap, Bump, Fits;
      BumpZero(after, tx.status.confirmed, Spent);
      ghost var all := SpentBy(scriptpubkey, tx.vin);
      assert tx.vin[..|tx.vin|] == tx.vin;
      for i := 0 to |tx.vin|
        invariant SpentBy(scriptpubkey, tx.vin[..i]) <= all
        invariant balance == Wrap(Bump(after, tx.status.confirmed, Spent, all - SpentBy(scriptpubkey, tx.vin[..i])))
        invariant overflowed == old(overflowed)
      {
        var vin := tx.vin[i];
        assert tx.vin[..i + 1][..i] == tx.vin[..i];
        SpentByPrefix(scriptpubkey, tx.vin, i + 1);
        if vin.prevout.Some? && vin.prevout.value.scriptpubkey == scriptpubkey {
          ghost var left := all - SpentBy(scriptpubkey, tx.vin[..i + 1]);
          if !overflowed { SmallerBumpFits(after, tx.status.confirmed, Spent, all - SpentBy(scriptpubkey, tx.vin[..i]), all); }
          BumpTwice(after, tx.status.confirmed, Spent, left, vin.prevout.value.value);
          Debit(tx.status.confirmed, Spent, vin.prevout.value.value, Bump(after, tx.status.confirmed, Spent, left));
        }
      }
    }

    method RemoveOutputs(tx: Tx, ghost after: Balances)
      requires var before := Bump(after, tx.status.confirmed, Funded, FundedBy(scriptpubkey, tx.vout));
               balance == Wrap(before) && (!overflowed ==> Fits(before))
      modifies this`balance, this`overflowed
      ensures balance == Wrap(after) && overflowed == old(overflowed)
    {
      hide Wrap, Bump, Fits;
      BumpZero(after, tx.status.confirmed, Funded);
      ghost var all := FundedBy(scriptpubkey, tx.vout);
      assert tx.vout[..|tx.vout|] == tx.vout;
      for i := 0 to |tx.vout|
        invariant FundedBy(scriptpubkey, tx.vout[..i]) <= all
        invariant balance == Wrap(Bump(after, tx.status.confirmed, Funded, all - FundedBy(scriptpubkey, tx.vout[..i])))
        invariant overflowed == old(overflowed)
      {
        var out := tx.vout[i];
        assert tx.vout[..i + 1][..i] == tx.vout[..i];
        FundedByPrefix(scriptpubkey, tx.vout, i + 1);
        if out.scriptpubkey == scriptpubkey {
          ghost var left := all - FundedBy(scriptpubkey, tx.vout[..i + 1]);
          if !overflowed { SmallerBumpFits(after, tx.status.confirmed, Funded, all - FundedBy(scriptpubkey, tx.vout[..i]), all); }
          BumpTwice(after, tx.status.confirmed, Funded, left, out.value);
          Debit(tx.status.confirmed, Funded, out.value, Bump(after, tx.status.confirmed, Funded, left));
        }
      }
    }
  }

  lemma {:induction false} SpentByPrefix(script: Script, vin: seq<Vin>, i: nat)
    requires i <= |vin|
    ensures SpentBy(script, vin[..i]) <= SpentBy(script, vin)
    decreases |vin|
  {
    if i < |vin| {
      SpentByPrefix(script, vin[..|vin| - 1], i);
      assert vin[..|vin| - 1][..i] == vin[..i];
    } else {
      assert vin[..i] == vin;
    }
  }

  lemma {:induction false} FundedByPrefix(script: Script, vout: seq<TxOut>, i: nat)
    requires i <= |vout|
    ensures FundedBy(script, vout[..i]) <= FundedBy(script, vout)
    decreases |vout|
  {
    if i < |vout| {
      FundedByPrefix(script, vout[..|vout| - 1], i);
      assert vout[..|vout| - 1][..i] == vout[..i];
    } else {
      assert vout[..i] == vout;
    }
  }

  lemma OverflowsNone(script: Script, m: TxMap)
    ensures Overflows(script, m, []) <==> !Fits(Recomputed(script, m))
  {
    var none: seq<Event> := [];
    assert none[..0] == none;
    assert ApplyAll(m, []) == m;
  }

  lemma OverflowsStep(script: Script, m: TxMap, es: seq<Event>, n: nat)
    requires n < |es|
    ensures Overflows(script, m, es[..n + 1])
            <==> Overflows(script, m, es[..n]) || !Fits(Recomputed(script, ApplyAll(m, es[..n + 1])))
  {
    forall i | 0 <= i <= n ensures es[..n + 1][..i] == es[..i] && es[..n][..i] == es[..i] {
    }
    assert es[..n + 1][..n + 1] == es[..n + 1];
    if Overflows(script, m, es[..n]) {
      var i :| 0 <= i <= n && !Fits(Recomputed(script, ApplyAll(m, es[..n][..i])));
      assert es[..n + 1][..i] == es[..i];
    }
    if Overflows(script, m, es[..n + 1]) {
      var i :| 0 <= i <= n + 1 && !Fits(Recomputed(script, ApplyAll(m, es[..n + 1][..i])));
      if i <= n { assert es[..n][..i] == es[..i]; }
    }
  }

  /**
   * Saving and rebuilding: the list saved from a map, inserted into an empty map, gives the map back, and the
   * list saved from the result is the same one.
   */
  lemma RebuildRoundTrip(m: TxMap, saved: seq<Tx>, again: seq<Tx>)
    requires ProperMap(m) && IsStateOf(saved, m)
    requires IsStateOf(again, MapOf(saved))
    ensures MapOf(saved) == m
    ensures again == saved
  {
    ListsMapOf(saved, m);
    StateUnique(m, saved, again);
  }

  /** The round trip carried out on objects. */
  method Rebuild(tracker: Tracker) returns (copy: Tracker)
    requires tracker.Valid() && ProperMap(tracker.transactions)
    ensures fresh(copy) && copy.Valid()
    ensures copy.transactions == tracker.transactions && copy.balance == tracker.balance
    ensures copy.scriptpubkey == tracker.scriptpubkey
  {
    var state := tracker.GetState();
    ListsMapOf(state.transactions, tracker.transactions);
    copy := new Tracker.From(state);
  }
}
