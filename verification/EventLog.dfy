/** The effect of address events on a transaction map, and what replaying part of a log does. */
module EventLog {
  import opened Types

  function Apply(m: TxMap, e: Event): TxMap {
    if e.Removed? then m - {e.tx.txid} else m[e.tx.txid := e.tx]
  }

  function ApplyAll(m: TxMap, es: seq<Event>): TxMap {
    if es == [] then m else Apply(ApplyAll(m, es[..|es| - 1]), es[|es| - 1])
  }

  function Lookup(m: TxMap, k: Txid): Option<Tx> {
    if k in m then Some(m[k]) else None
  }

  /** The last event of `es` that concerns transaction `k`. */
  function LastAbout(es: seq<Event>, k: Txid): (r: Option<Event>)
    ensures r.None? <==> forall e :: e in es ==> e.tx.txid != k
    ensures r.Some? ==> r.value in es && r.value.tx.txid == k
  {
    if es == [] then None
    else if es[|es| - 1].tx.txid == k then Some(es[|es| - 1])
    else
      assert es == es[..|es| - 1] + [es[|es| - 1]];
      LastAbout(es[..|es| - 1], k)
  }

  /** What an event leaves behind for its transaction. */
  function Outcome(e: Event): Option<Tx> {
    if e.Removed? then None else Some(e.tx)
  }

  /** After any list of events each transaction is where the last event about it put it. */
  lemma {:induction false} LastEventDecides(m: TxMap, es: seq<Event>, k: Txid)
    ensures Lookup(ApplyAll(m, es), k) ==
            match LastAbout(es, k) { case None => Lookup(m, k) case Some(e) => Outcome(e) }
  {
    if es != [] {
      LastEventDecides(m, es[..|es| - 1], k);
    }
  }

  lemma {:induction false} LastAboutConcat(a: seq<Event>, b: seq<Event>, k: Txid)
    ensures LastAbout(a + b, k) == if LastAbout(b, k).Some? then LastAbout(b, k) else LastAbout(a, k)
  {
    if b == [] {
      assert a + b == a;
    } else {
      assert (a + b)[..|a + b| - 1] == a + b[..|b| - 1];
      LastAboutConcat(a, b[..|b| - 1], k);
    }
  }

  lemma MapsEqual(m: TxMap, n: TxMap)
    requires forall k :: Lookup(m, k) == Lookup(n, k)
    ensures m == n
  {
    forall k ensures k in m <==> k in n {
      assert Lookup(m, k) == Lookup(n, k);
    }
    forall k | k in m ensures m[k] == n[k] {
      assert Lookup(m, k) == Lookup(n, k);
    }
  }

  lemma {:induction false} ApplyAllConcat(m: TxMap, a: seq<Event>, b: seq<Event>)
    ensures ApplyAll(m, a + b) == ApplyAll(ApplyAll(m, a), b)
  {
    if b == [] {
      assert a + b == a;
    } else {
      assert (a + b)[..|a + b| - 1] == a + b[..|b| - 1];
      ApplyAllConcat(m, a, b[..|b| - 1]);
    }
  }

  lemma {:induction false} ApplyAllKeepsProper(m: TxMap, es: seq<Event>)
    requires ProperMap(m) && forall e :: e in es ==> Proper(e.tx)
    ensures ProperMap(ApplyAll(m, es))
  {
    if es != [] {
      ApplyAllKeepsProper(m, es[..|es| - 1]);
    }
  }

  /** The server's transaction set after the first `i` events of its log. */
  function At(start: TxMap, log: seq<Event>, i: nat): TxMap
    requires i <= |log|
  {
    ApplyAll(start, log[..i])
  }

  /** What happened between two times decides what changed. */
  lemma SilentBetween(start: TxMap, log: seq<Event>, i: nat, j: nat, k: Txid)
    requires i <= j <= |log|
    ensures Lookup(At(start, log, j), k) ==
            match LastAbout(log[i..j], k) { case None => Lookup(At(start, log, i), k) case Some(e) => Outcome(e) }
  {
    LastEventDecides(start, log[..i], k);
    LastEventDecides(start, log[..j], k);
    assert log[..j] == log[..i] + log[i..j];
    LastAboutConcat(log[..i], log[i..j], k);
  }

  /**
   * Whatever map a stream of events is replayed over, the result is the server's set at the end of the stream
   * exactly when the map says what the server says of every transaction the stream is silent about.
   */
  lemma ReplayConvergesIff(start: TxMap, log: seq<Event>, m: TxMap, s: nat, u: nat)
    requires s <= u <= |log|
    ensures ApplyAll(m, log[s..u]) == At(start, log, u)
            <==> forall k :: LastAbout(log[s..u], k).None? ==> Lookup(m, k) == Lookup(At(start, log, u), k)
  {
    var target := At(start, log, u);
    var got := ApplyAll(m, log[s..u]);
    forall k
      ensures Lookup(got, k) == Lookup(target, k) <==> (LastAbout(log[s..u], k).None? ==> Lookup(m, k) == Lookup(target, k))
    {
      LastEventDecides(m, log[s..u], k);
      SilentBetween(start, log, s, u, k);
    }
    if forall k :: Lookup(got, k) == Lookup(target, k) {
      MapsEqual(got, target);
    }
  }

  /**
   * Snapshot plus log: a snapshot taken at time `t`, over which every event from an earlier time `s`
   * up to a later time `u` is replayed, is the server's set at `u`, although the events before `t` are
   * already part of the snapshot.
   */
  lemma SnapshotPlusLog(start: TxMap, log: seq<Event>, s: nat, t: nat, u: nat)
    requires s <= t <= u <= |log|
    ensures ApplyAll(At(start, log, t), log[s..u]) == At(start, log, u)
  {
    ReplayConvergesIff(start, log, At(start, log, t), s, u);
    assert log[s..u] == log[s..t] + log[t..u];
    forall k | LastAbout(log[s..u], k).None? ensures Lookup(At(start, log, t), k) == Lookup(At(start, log, u), k) {
      SilentBetween(start, log, t, u, k);
      LastAboutConcat(log[s..t], log[t..u], k);
    }
  }

  /**
   * Events left in the queue by an earlier connection are drained over a newer snapshot. The tracker
   * still converges exactly when, for every transaction the new stream is silent about, the last stale
   * event says what the snapshot says.
   */
  lemma StaleQueueConvergesIff(start: TxMap, log: seq<Event>, stale: seq<Event>, s: nat, t: nat, u: nat)
    requires s <= t <= u <= |log|
    ensures ApplyAll(At(start, log, t), stale + log[s..u]) == At(start, log, u)
            <==> forall k :: LastAbout(stale, k).Some? && LastAbout(log[s..u], k).None?
                   ==> Outcome(LastAbout(stale, k).value) == Lookup(At(start, log, t), k)
  {
    var snapshot, target := At(start, log, t), At(start, log, u);
    ApplyAllConcat(snapshot, stale, log[s..u]);
    ReplayConvergesIff(start, log, ApplyAll(snapshot, stale), s, u);
    assert log[s..u] == log[s..t] + log[t..u];
    forall k | LastAbout(log[s..u], k).None?
      ensures Lookup(ApplyAll(snapshot, stale), k) == Lookup(target, k)
              <==> (LastAbout(stale, k).Some? ==> Outcome(LastAbout(stale, k).value) == Lookup(snapshot, k))
    {
      LastEventDecides(snapshot, stale, k);
      SilentBetween(start, log, t, u, k);
      LastAboutConcat(log[s..t], log[t..u], k);
    }
  }

  /**
   * A subscription that takes effect at `s`, after the snapshot of time `t`: the events in between never arrive.
   * The tracker still converges exactly when, for every transaction the stream is silent about, the last event
   * missed says what the snapshot says.
   */
  lemma LateSubscriptionConvergesIff(start: TxMap, log: seq<Event>, t: nat, s: nat, u: nat)
    requires t <= s <= u <= |log|
    ensures ApplyAll(At(start, log, t), log[s..u]) == At(start, log, u)
            <==> forall k :: LastAbout(log[t..s], k).Some? && LastAbout(log[s..u], k).None?
                   ==> Outcome(LastAbout(log[t..s], k).value) == Lookup(At(start, log, t), k)
  {
    var snapshot, target := At(start, log, t), At(start, log, u);
    ReplayConvergesIff(start, log, snapshot, s, u);
    assert log[t..u] == log[t..s] + log[s..u];
    forall k | LastAbout(log[s..u], k).None?
      ensures Lookup(snapshot, k) == Lookup(target, k)
              <==> (LastAbout(log[t..s], k).Some? ==> Outcome(LastAbout(log[t..s], k).value) == Lookup(snapshot, k))
    {
      SilentBetween(start, log, t, u, k);
      LastAboutConcat(log[t..s], log[s..u], k);
    }
  }
}
