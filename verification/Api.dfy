/** Paged download of an address history (`fetch_address_history`). */
module Api {
  import opened Types

  /** Page size requested from the server. */
  const PAGE: nat := 50

  function PositionAfter(h: seq<Tx>, id: Txid): (n: nat)
    ensures n <= |h|
  {
    if h == [] then 0 else if h[0].txid == id then 1 else 1 + PositionAfter(h[1..], id)
  }

  /** The server's answer: up to fifty transactions, newest first, after the one last seen. */
  function Page(h: seq<Tx>, lastSeen: Option<Txid>): seq<Tx> {
    var start := if lastSeen.Some? then PositionAfter(h, lastSeen.value) else 0;
    if start + PAGE <= |h| then h[start..start + PAGE] else h[start..]
  }

  lemma {:induction false} PositionAfterDistinct(h: seq<Tx>, i: nat)
    requires i < |h| && DistinctIds(h)
    ensures PositionAfter(h, h[i].txid) == i + 1
  {
    if i > 0 { PositionAfterDistinct(h[1..], i - 1); }
  }

  function Reverse(s: seq<Tx>): (r: seq<Tx>)
    ensures |r| == |s| && forall i :: 0 <= i < |s| ==> r[i] == s[|s| - 1 - i]
  {
    if s == [] then [] else Reverse(s[1..]) + [s[0]]
  }

  predicate Below(tx: Tx, height: Option<U32>) {
    tx.status.confirmed && OptionLess(tx.status.blockHeight, height)
  }

  predicate HasId(s: seq<Tx>, id: Option<Txid>) {
    exists i :: 0 <= i < |s| && Some(s[i].txid) == id
  }

  ghost predicate TxidMet(h: seq<Tx>, n: nat, untilTxid: Option<Txid>)
    requires n <= |h|
  {
    untilTxid.None? || HasId(h[..n], untilTxid)
  }

  ghost predicate HeightMet(h: seq<Tx>, n: nat, untilHeight: Option<U32>)
    requires n <= |h|
  {
    untilHeight.None? || exists i :: 0 <= i < n && (i + 1) % PAGE == 0 && Below(h[i], untilHeight)
  }

  /** Both limits are met by the first `n` transactions: the id occurs, and some full page ends strictly below the height. */
  ghost predicate LimitsMet(h: seq<Tx>, n: nat, untilTxid: Option<Txid>, untilHeight: Option<U32>)
    requires n <= |h|
  {
    && TxidMet(h, n, untilTxid)
    && HeightMet(h, n, untilHeight)
  }

  predicate Limited(untilTxid: Option<Txid>, untilHeight: Option<U32>) {
    untilTxid.Some? || untilHeight.Some?
  }

  /** The download may stop after `n` transactions: they are full pages and meet the limits. */
  ghost predicate StopsAt(h: seq<Tx>, n: nat, untilTxid: Option<Txid>, untilHeight: Option<U32>) {
    0 < n <= |h| && n % PAGE == 0 && Limited(untilTxid, untilHeight) && LimitsMet(h, n, untilTxid, untilHeight)
  }

  /** How much of the history is downloaded: up to the first stopping point, else all of it. */
  ghost function FetchedLength(h: seq<Tx>, untilTxid: Option<Txid>, untilHeight: Option<U32>): (n: nat)
    ensures n <= |h|
    ensures n == |h| || StopsAt(h, n, untilTxid, untilHeight)
    ensures forall j :: StopsAt(h, j, untilTxid, untilHeight) ==> n <= j
  {
    if exists j :: StopsAt(h, j, untilTxid, untilHeight)
    then
      var some :| StopsAt(h, some, untilTxid, untilHeight);
      LeastStop(h, some, untilTxid, untilHeight)
    else |h|
  }

  ghost function LeastStop(h: seq<Tx>, bound: nat, untilTxid: Option<Txid>, untilHeight: Option<U32>): (n: nat)
    requires StopsAt(h, bound, untilTxid, untilHeight)
    ensures StopsAt(h, n, untilTxid, untilHeight)
    ensures forall j :: StopsAt(h, j, untilTxid, untilHeight) ==> n <= j
    decreases bound
  {
    if exists j: nat :: j < bound && StopsAt(h, j, untilTxid, untilHeight)
    then
      var j: nat :| j < bound && StopsAt(h, j, untilTxid, untilHeight);
      LeastStop(h, j, untilTxid, untilHeight)
    else bound
  }

  /** Number of page requests a download needs. */
  ghost function Requests(h: seq<Tx>, untilTxid: Option<Txid>, untilHeight: Option<U32>): nat {
    var n := FetchedLength(h, untilTxid, untilHeight);
    if StopsAt(h, n, untilTxid, untilHeight) then n / PAGE else n / PAGE + 1
  }

  /**
   * `h` is the server's history, fixed during the download; `failAt` is the request that fails, if any.
   * The result is in chronological order, oldest first.
   */
  method FetchAddressHistory(h: seq<Tx>, untilTxid: Option<Txid>, untilHeight: Option<U32>, failAt: Option<nat>)
    returns (r: Result<seq<Tx>>, requests: nat)
    requires DistinctIds(h)
    ensures r.Err? <==> failAt.Some? && failAt.value < Requests(h, untilTxid, untilHeight)
    ensures r.Ok? ==> r.value == Reverse(h[..FetchedLength(h, untilTxid, untilHeight)])
    ensures r.Ok? && !Limited(untilTxid, untilHeight) ==> r.value == Reverse(h)
    ensures requests == if r.Ok? then Requests(h, untilTxid, untilHeight) else failAt.value + 1
    // fifty transactions a request, or everything after one request that came back short
    ensures r.Ok? ==> |r.value| == 50 * requests || (|r.value| == |h| && requests == |h| / 50 + 1)
    // never less than the transaction and the height asked for, if the history has them
    ensures r.Ok? ==> forall p :: 0 <= p < |h| && Some(h[p].txid) == untilTxid ==> |r.value| > p
    ensures r.Ok? && untilHeight.Some? && |r.value| < |h| ==>
              exists i :: 0 <= i < |r.value| && h[i].status.confirmed && OptionLess(h[i].status.blockHeight, untilHeight)
  {
    hide StopsAt, HasId, HeightMet, TxidMet, FetchedLength, Requests, Below, Page, Reverse, DistinctIds, OptionLess;
    var allTxs: seq<Tx> := [];
    var done := false;
    var foundTxid := untilTxid.None?;
    var foundHeight := untilHeight.None?;
    var limitRequests := !foundTxid || !foundHeight;
    var lastTxid: Option<Txid> := None;
    requests := 0;
    ghost var n: nat := 0;
    NothingFetched(h, untilTxid, untilHeight);
    while !done && (!limitRequests || !foundTxid || !foundHeight)
      invariant limitRequests == Limited(untilTxid, untilHeight)
      invariant n <= |h|
      invariant allTxs == h[..n]
      invariant done ==> n == |h| && requests == n / PAGE + 1
      invariant !done ==> n % PAGE == 0 && requests == n / PAGE
      invariant !done ==> lastTxid == if n == 0 then None else Some(h[n - 1].txid)
      invariant !done && limitRequests ==> (foundTxid <==> TxidMet(h, n, untilTxid))
      invariant !done && limitRequests ==> (foundHeight <==> HeightMet(h, n, untilHeight))
      invariant forall j: nat :: j < n ==> !StopsAt(h, j, untilTxid, untilHeight)
      invariant done ==> forall j :: !StopsAt(h, j, untilTxid, untilHeight)
      invariant forall j :: 0 <= j < requests ==> failAt != Some(j)
      decreases !done, |h| - n
    {
      NotYet(h, n, untilTxid, untilHeight);
      requests := requests + 1;
      if failAt == Some(requests - 1) {
        FailedRequest(h, n, untilTxid, untilHeight);
        return Err, requests;
      }
      var txs := Page(h, lastTxid);
      PageContents(h, n);
      PageSeen(h, n, untilTxid, untilHeight);
      foundTxid := foundTxid || (limitRequests && HasId(txs, untilTxid));
      if |txs| > 0 {
        foundHeight := foundHeight || Below(txs[|txs| - 1], untilHeight);
      }
      if |txs| == 50 {
        lastTxid := Some(txs[|txs| - 1].txid);
      } else {
        done := true;
      }
      allTxs := allTxs + txs;
      n := n + |txs|;
    }
    StopReached(h, n, requests, done, untilTxid, untilHeight);
    if n < |h| { StopHolds(h, n, untilTxid, untilHeight); }
    r := Ok(Reverse(allTxs));
    assert done ==> allTxs == h;
  }

  lemma NothingFetched(h: seq<Tx>, untilTxid: Option<Txid>, untilHeight: Option<U32>)
    ensures TxidMet(h, 0, untilTxid) <==> untilTxid.None?
    ensures HeightMet(h, 0, untilHeight) <==> untilHeight.None?
  {
  }

  lemma NotYet(h: seq<Tx>, n: nat, untilTxid: Option<Txid>, untilHeight: Option<U32>)
    requires n <= |h|
    requires !Limited(untilTxid, untilHeight) || !TxidMet(h, n, untilTxid) || !HeightMet(h, n, untilHeight)
    ensures !StopsAt(h, n, untilTxid, untilHeight)
  {
  }

  /** The page after the first `n` transactions. */
  lemma PageContents(h: seq<Tx>, n: nat)
    requires DistinctIds(h) && n <= |h|
    ensures var txs := Page(h, if n == 0 then None else Some(h[n - 1].txid));
            && (|txs| == if n + PAGE <= |h| then PAGE else |h| - n)
            && txs == h[n..n + |txs|] && h[..n + |txs|] == h[..n] + txs
  {
    if n > 0 { PositionAfterDistinct(h, n - 1); }
  }

  /** What one more page adds to the limits. */
  lemma PageSeen(h: seq<Tx>, n: nat, untilTxid: Option<Txid>, untilHeight: Option<U32>)
    requires n <= |h| && n % PAGE == 0
    ensures n + PAGE <= |h| ==> (TxidMet(h, n + PAGE, untilTxid) <==> TxidMet(h, n, untilTxid) || HasId(h[n..n + PAGE], untilTxid))
    ensures n + PAGE <= |h| ==> (HeightMet(h, n + PAGE, untilHeight) <==> HeightMet(h, n, untilHeight) || Below(h[n + PAGE - 1], untilHeight))
    ensures forall j :: n < j < n + PAGE ==> !StopsAt(h, j, untilTxid, untilHeight)
    ensures |h| < n + PAGE ==> (forall j :: n < j ==> !StopsAt(h, j, untilTxid, untilHeight)) && |h| / PAGE == n / PAGE
  {
    if n + PAGE <= |h| {
      assert h[..n + PAGE] == h[..n] + h[n..n + PAGE];
      HasIdConcat(h[..n], h[n..n + PAGE], untilTxid);
      assert (n + PAGE - 1 + 1) % PAGE == 0;
    }
  }

  lemma HasIdConcat(a: seq<Tx>, b: seq<Tx>, id: Option<Txid>)
    ensures HasId(a + b, id) <==> HasId(a, id) || HasId(b, id)
  {
    if HasId(b, id) {
      var i :| 0 <= i < |b| && Some(b[i].txid) == id;
      assert (a + b)[|a| + i] == b[i];
    }
    if HasId(a, id) {
      var i :| 0 <= i < |a| && Some(a[i].txid) == id;
      assert (a + b)[i] == a[i];
    }
  }

  lemma FailedRequest(h: seq<Tx>, n: nat, untilTxid: Option<Txid>, untilHeight: Option<U32>)
    requires n <= |h| && n % PAGE == 0
    requires forall j: nat :: j <= n ==> !StopsAt(h, j, untilTxid, untilHeight)
    ensures n / PAGE < Requests(h, untilTxid, untilHeight)
  {
    var m := FetchedLength(h, untilTxid, untilHeight);
    if StopsAt(h, m, untilTxid, untilHeight) {
      assert m > n;
    } else {
      assert m == |h|;
    }
  }

  lemma StopReached(h: seq<Tx>, n: nat, requests: nat, done: bool, untilTxid: Option<Txid>, untilHeight: Option<U32>)
    requires n <= |h|
    requires done ==> n == |h| && requests == n / PAGE + 1 && forall j :: !StopsAt(h, j, untilTxid, untilHeight)
    requires !done ==> n % PAGE == 0 && requests == n / PAGE && Limited(untilTxid, untilHeight)
    requires !done ==> LimitsMet(h, n, untilTxid, untilHeight)
    requires !done ==> forall j: nat :: j < n ==> !StopsAt(h, j, untilTxid, untilHeight)
    ensures n == FetchedLength(h, untilTxid, untilHeight)
    ensures requests == Requests(h, untilTxid, untilHeight)
  {
    if !done {
      assert n > 0;
      assert StopsAt(h, n, untilTxid, untilHeight);
    }
  }

  /** What a stopping point has met, in terms of the transactions. */
  lemma StopHolds(h: seq<Tx>, n: nat, untilTxid: Option<Txid>, untilHeight: Option<U32>)
    requires DistinctIds(h) && StopsAt(h, n, untilTxid, untilHeight)
    ensures forall p :: 0 <= p < |h| && Some(h[p].txid) == untilTxid ==> p < n
    ensures untilHeight.Some? ==>
              exists i :: 0 <= i < n && h[i].status.confirmed && OptionLess(h[i].status.blockHeight, untilHeight)
  {
    if untilTxid.Some? {
      var i :| 0 <= i < n && Some(h[..n][i].txid) == untilTxid;
      assert h[i].txid == untilTxid.value;
    }
    if untilHeight.Some? {
      var i :| 0 <= i < n && (i + 1) % PAGE == 0 && Below(h[i], untilHeight);
    }
  }
}
