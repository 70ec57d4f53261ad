/** Websocket payloads: how one payload becomes a series of address events, and what those do to the wallet. */
module MessageManager {
  import opened Types
  import opened EventLog
  import opened AddressTracker
  import opened WalletClient

  datatype Batch = Batch(mempool: seq<Tx>, confirmed: seq<Tx>, removed: seq<Tx>)

  datatype Kind = RemovedKind | MempoolKind | ConfirmedKind

  function MakeEvent(kind: Kind, spk: Script, tx: Tx): Event {
    match kind
    case RemovedKind => Removed(spk, tx)
    case MempoolKind => Mempool(spk, tx)
    case ConfirmedKind => Confirmed(spk, tx)
  }

  function EventsOf(kind: Kind, spk: Script, txs: seq<Tx>): seq<Event> {
    seq(|txs|, i requires 0 <= i < |txs| => MakeEvent(kind, spk, txs[i]))
  }

  /** Removed first, then mempool, then confirmed. */
  function BatchEvents(spk: Script, b: Batch): seq<Event> {
    EventsOf(RemovedKind, spk, b.removed) + EventsOf(MempoolKind, spk, b.mempool) + EventsOf(ConfirmedKind, spk, b.confirmed)
  }

  /** The events of a payload whose scripts are visited in the given order. */
  function PayloadEvents(payload: map<Script, Batch>, order: seq<Script>): seq<Event>
    requires forall spk :: spk in order ==> spk in payload
  {
    if order == [] then []
    else PayloadEvents(payload, order[..|order| - 1]) + BatchEvents(order[|order| - 1], payload[order[|order| - 1]])
  }

  /** `order` visits every script of the payload once. */
  ghost predicate Visits(order: seq<Script>, payload: map<Script, Batch>) {
    && (forall i, j :: 0 <= i < j < |order| ==> order[i] != order[j])
    && (forall spk :: spk in order <==> spk in payload)
  }

  class Manager {
    /** Address events broadcast so far. */
    var events: seq<Event>

    constructor ()
      ensures events == []
    {
      events := [];
    }

    method NotifyTransactionsForSpk(kind: Kind, spk: Script, txs: seq<Tx>)
      modifies this
      ensures events == old(events) + EventsOf(kind, spk, txs)
    {
      for i := 0 to |txs|
        invariant events == old(events) + EventsOf(kind, spk, txs[..i])
      {
        events := events + [MakeEvent(kind, spk, txs[i])];
        assert EventsOf(kind, spk, txs[..i + 1]) == EventsOf(kind, spk, txs[..i]) + [MakeEvent(kind, spk, txs[i])];
      }
      assert txs[..|txs|] == txs;
    }

    /** The scripts of the payload's hash map are visited in some order. */
    method NotifySpkTransactions(payload: map<Script, Batch>) returns (ghost order: seq<Script>)
      modifies this
      ensures Visits(order, payload) && events == old(events) + PayloadEvents(payload, order)
      // of every script, each transaction of its lists once and in order, under the kind of its list
      ensures old(events) <= events
      ensures forall spk :: spk in payload ==> Announces(About(events[|old(events)|..], spk), spk, payload[spk])
      ensures forall spk :: spk !in payload ==> About(events[|old(events)|..], spk) == []
    {
      hide EventsOf, Announces, About;
      order := [];
      var rest := payload.Keys;
      while rest != {}
        invariant rest <= payload.Keys
        invariant forall i, j :: 0 <= i < j < |order| ==> order[i] != order[j]
        invariant forall spk :: spk in order <==> spk in payload && spk !in rest
        invariant events == old(events) + PayloadEvents(payload, order)
        decreases |rest|
      {
        var spk :| spk in rest;
        rest := rest - {spk};
        NotifyTransactionsForSpk(RemovedKind, spk, payload[spk].removed);
        NotifyTransactionsForSpk(MempoolKind, spk, payload[spk].mempool);
        NotifyTransactionsForSpk(ConfirmedKind, spk, payload[spk].confirmed);
        assert events == old(events) + (PayloadEvents(payload, order) + BatchEvents(spk, payload[spk]));
        ghost var longer := order + [spk];
        assert longer[..|order|] == order;
        order := longer;
      }
      assert events[|old(events)|..] == PayloadEvents(payload, order);
      PayloadAnnounced(payload, order);
    }
  }

  /** All events delivered to the wallet in order, as real-time events. */
  function DeliverAll(v: Views, es: seq<Event>): Views {
    if es == [] then v else Deliver(DeliverAll(v, es[..|es| - 1]), es[|es| - 1], true)
  }

  function ReceiveAll(v: View, es: seq<Event>): View {
    if es == [] then v else Receive(ReceiveAll(v, es[..|es| - 1]), es[|es| - 1], true)
  }

  /** The events of one script. */
  function About(es: seq<Event>, spk: Script): seq<Event> {
    if es == [] then []
    else About(es[..|es| - 1], spk) + (if es[|es| - 1].scriptpubkey == spk then [es[|es| - 1]] else [])
  }

  /** Each tracker sees its own events, in their order, and nothing else. */
  lemma {:induction false} TrackersAreIndependent(v: Views, es: seq<Event>)
    ensures DeliverAll(v, es).Keys == v.Keys
    ensures forall spk :: spk in v ==> DeliverAll(v, es)[spk] == ReceiveAll(v[spk], About(es, spk))
  {
    if es != [] {
      var init, last := es[..|es| - 1], es[|es| - 1];
      TrackersAreIndependent(v, init);
      forall spk | spk in v ensures DeliverAll(v, es)[spk] == ReceiveAll(v[spk], About(es, spk)) {
        if last.scriptpubkey == spk {
          assert About(es, spk)[..|About(es, spk)| - 1] == About(init, spk);
        } else {
          assert About(es, spk) == About(init, spk);
        }
      }
    }
  }

  lemma {:induction false} AboutConcat(a: seq<Event>, b: seq<Event>, spk: Script)
    ensures About(a + b, spk) == About(a, spk) + About(b, spk)
  {
    if b == [] {
      assert a + b == a;
      assert About(a, spk) + [] == About(a, spk);
    } else {
      assert (a + b)[..|a + b| - 1] == a + b[..|b| - 1];
      AboutConcat(a, b[..|b| - 1], spk);
    }
  }

  lemma {:induction false} AboutOneScript(es: seq<Event>, from: Script, spk: Script)
    requires forall e :: e in es ==> e.scriptpubkey == from
    ensures About(es, spk) == if spk == from then es else []
  {
    if es != [] {
      assert es == es[..|es| - 1] + [es[|es| - 1]];
      AboutOneScript(es[..|es| - 1], from, spk);
    }
  }

  /** The events of one script: its removed transactions, then its mempool ones, then its confirmed ones, each list in order. */
  ghost predicate Announces(es: seq<Event>, spk: Script, b: Batch) {
    && |es| == |b.removed| + |b.mempool| + |b.confirmed|
    && (forall i :: 0 <= i < |b.removed| ==> es[i] == Removed(spk, b.removed[i]))
    && (forall i :: 0 <= i < |b.mempool| ==> es[|b.removed| + i] == Mempool(spk, b.mempool[i]))
    && (forall i :: 0 <= i < |b.confirmed| ==> es[|b.removed| + |b.mempool| + i] == Confirmed(spk, b.confirmed[i]))
  }

  lemma BatchAnnounces(spk: Script, b: Batch)
    ensures Announces(BatchEvents(spk, b), spk, b)
  {
  }

  lemma BatchIsOneScript(spk: Script, b: Batch)
    ensures forall e :: e in BatchEvents(spk, b) ==> e.scriptpubkey == spk
  {
  }

  lemma {:induction false} AboutPayload(payload: map<Script, Batch>, order: seq<Script>, spk: Script)
    requires forall s :: s in order ==> s in payload
    requires forall i, j :: 0 <= i < j < |order| ==> order[i] != order[j]
    ensures About(PayloadEvents(payload, order), spk) == if spk in order then BatchEvents(spk, payload[spk]) else []
  {
    hide BatchEvents;
    if order != [] {
      var init, last := order[..|order| - 1], order[|order| - 1];
      assert order == init + [last];
      AboutPayload(payload, init, spk);
      AboutConcat(PayloadEvents(payload, init), BatchEvents(last, payload[last]), spk);
      BatchIsOneScript(last, payload[last]);
      AboutOneScript(BatchEvents(last, payload[last]), last, spk);
    }
  }

  /** Whatever the order of the scripts, the payload announces each of their batches and nothing else. */
  lemma PayloadAnnounced(payload: map<Script, Batch>, order: seq<Script>)
    requires Visits(order, payload)
    ensures forall spk :: spk in payload ==> Announces(About(PayloadEvents(payload, order), spk), spk, payload[spk])
    ensures forall spk :: spk !in payload ==> About(PayloadEvents(payload, order), spk) == []
  {
    hide BatchEvents, Announces, About, PayloadEvents;
    forall spk | spk in payload ensures Announces(About(PayloadEvents(payload, order), spk), spk, payload[spk]) {
      AboutPayload(payload, order, spk);
      BatchAnnounces(spk, payload[spk]);
    }
    forall spk | spk !in payload ensures About(PayloadEvents(payload, order), spk) == [] {
      AboutPayload(payload, order, spk);
    }
  }

  /** The iteration order of the payload's script map does not matter. */
  lemma PayloadOrderIrrelevant(v: Views, payload: map<Script, Batch>, order1: seq<Script>, order2: seq<Script>)
    requires Visits(order1, payload) && Visits(order2, payload)
    ensures DeliverAll(v, PayloadEvents(payload, order1)) == DeliverAll(v, PayloadEvents(payload, order2))
  {
    hide BatchEvents;
    var a, b := PayloadEvents(payload, order1), PayloadEvents(payload, order2);
    TrackersAreIndependent(v, a);
    TrackersAreIndependent(v, b);
    forall spk | spk in v ensures DeliverAll(v, a)[spk] == DeliverAll(v, b)[spk] {
      AboutPayload(payload, order1, spk);
      AboutPayload(payload, order2, spk);
    }
  }

  lemma {:induction false} LastOfKind(kind: Kind, spk: Script, txs: seq<Tx>, k: Txid)
    ensures LastAbout(EventsOf(kind, spk, txs), k) ==
            match WithId(txs, k) { case None => None case Some(tx) => Some(MakeEvent(kind, spk, tx)) }
  {
    if txs != [] {
      LastOfKind(kind, spk, txs[..|txs| - 1], k);
      assert EventsOf(kind, spk, txs)[..|txs| - 1] == EventsOf(kind, spk, txs[..|txs| - 1]);
    }
  }

  lemma {:induction false} ReceiveAllView(v: View, es: seq<Event>)
    ensures ReceiveAll(v, es) == if v.loading then v.(queue := v.queue + es) else v.(transactions := ApplyAll(v.transactions, es))
  {
    if es != [] {
      ReceiveAllView(v, es[..|es| - 1]);
      assert es == es[..|es| - 1] + [es[|es| - 1]];
    } else {
      assert v.queue + [] == v.queue;
    }
  }

  /**
   * A transaction that one payload mentions in several lists of a script ends by the precedence confirmed, then
   * mempool, then removed; one it does not mention stays as it was.
   */
  lemma PayloadPrecedence(v: Views, payload: map<Script, Batch>, order: seq<Script>, spk: Script, k: Txid)
    requires Visits(order, payload) && spk in payload && spk in v && !v[spk].loading
    ensures var b := payload[spk];
            var after := DeliverAll(v, PayloadEvents(payload, order));
            && spk in after
            && Lookup(after[spk].transactions, k) ==
               if WithId(b.confirmed, k).Some? then WithId(b.confirmed, k)
               else if WithId(b.mempool, k).Some? then WithId(b.mempool, k)
               else if WithId(b.removed, k).Some? then None
               else Lookup(v[spk].transactions, k)
  {
    hide About, PayloadEvents, DeliverAll, ReceiveAll, ApplyAll, LastAbout, EventsOf, WithId;
    var b := payload[spk];
    var es := BatchEvents(spk, b);
    TrackersAreIndependent(v, PayloadEvents(payload, order));
    AboutPayload(payload, order, spk);
    ReceiveAllView(v[spk], es);
    LastEventDecides(v[spk].transactions, es, k);
    var r, m, c := EventsOf(RemovedKind, spk, b.removed), EventsOf(MempoolKind, spk, b.mempool), EventsOf(ConfirmedKind, spk, b.confirmed);
    LastAboutConcat(r + m, c, k);
    LastAboutConcat(r, m, k);
    LastOfKind(RemovedKind, spk, b.removed, k);
    LastOfKind(MempoolKind, spk, b.mempool, k);
    LastOfKind(ConfirmedKind, spk, b.confirmed, k);
  }
}
