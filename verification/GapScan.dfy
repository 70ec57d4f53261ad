/** The scan of one keychain (`update_tx_graph`): scripts with consecutive indices are fetched until a gap is found. */
module GapScan {
  import opened Types

  /** The gap passed by a scan without a keychain. */
  const USIZE_MAX: nat := U64_RANGE - 1

  /** `active[i]`: the script at index `i` has confirmed transactions. */
  function LastActive(active: seq<bool>): (r: Option<nat>)
    ensures r.Some? ==> r.value < |active| && active[r.value] && forall i :: r.value < i < |active| ==> !active[i]
    ensures r.None? ==> forall i :: 0 <= i < |active| ==> !active[i]
  {
    if active == [] then None
    else if active[|active| - 1] then Some(|active| - 1)
    else LastActive(active[..|active| - 1])
  }

  /** The last index that does not end the scan, with the source's 32-bit cast and addition. */
  function Limit(last: Option<nat>, stopGap: nat): Option<nat> {
    if last.None? then None else Some((last.value + stopGap % U32_RANGE) % U32_RANGE)
  }

  /** The scan ends after index `k`. An absent limit lies below every index. */
  predicate StopsAfter(active: seq<bool>, stopGap: nat, k: nat)
    requires k < |active|
  {
    OptionLess(Limit(LastActive(active[..k + 1]), stopGap), Some(k))
  }

  /** `n` scripts are scanned: up to the first index that ends the scan, or all of them. */
  ghost predicate Scanned(active: seq<bool>, stopGap: nat, n: nat) {
    && n <= |active|
    && (forall k :: 0 <= k < n - 1 ==> !StopsAfter(active, stopGap, k))
    && (n < |active| ==> n > 0 && StopsAfter(active, stopGap, n - 1))
  }

  method Scan(active: seq<bool>, stopGap: nat) returns (last: Option<nat>, n: nat)
    ensures Scanned(active, stopGap, n) && last == LastActive(active[..n])
  {
    last := None;
    n := 0;
    while n < |active|
      invariant n <= |active| && last == LastActive(active[..n])
      invariant forall k :: 0 <= k < n ==> !StopsAfter(active, stopGap, k)
    {
      assert active[..n + 1][..n] == active[..n];
      if active[n] {
        last := Some(n);
      }
      n := n + 1;
      if OptionLess(Limit(last, stopGap), Some(n - 1)) {
        break;
      }
    }
  }

  /** Every active index after the first follows an earlier one within the gap and one more. */
  ghost predicate GapsAreShort(active: seq<bool>, stopGap: nat) {
    forall j :: 0 < j < |active| && active[j] ==> exists i :: 0 <= i < j && active[i] && j - i <= stopGap + 1
  }

  /** With an active first index and sums within 32 bits, an index ends the scan when it lies beyond the gap. */
  lemma StopsBeyondGap(active: seq<bool>, stopGap: nat, k: nat)
    requires k < |active| && active[0] && |active| + stopGap <= U32_RANGE
    ensures LastActive(active[..k + 1]).Some?
    ensures StopsAfter(active, stopGap, k) <==> k > LastActive(active[..k + 1]).value + stopGap
  {
    assert active[..k + 1][0];
    assert stopGap % U32_RANGE == stopGap;
  }

  /** The scan finds the last active index exactly when no gap before an active index is longer than the documented one. */
  lemma ScanFindsLastIff(active: seq<bool>, stopGap: nat, n: nat)
    requires Scanned(active, stopGap, n)
    requires active != [] && active[0] && |active| + stopGap <= 0x1_0000_0000
    ensures LastActive(active[..n]) == LastActive(active) <==> GapsAreShort(active, stopGap)
  {
    if n < |active| {
      StopsBeyondGap(active, stopGap, n - 1);
      var i := LastActive(active[..n]).value;
      forall j | i < j < n ensures !active[j] {
        assert active[..n][j] == active[j];
      }
      if LastActive(active) != LastActive(active[..n]) {
        FirstBeyond(active, stopGap, n, i);
      } else {
        ShortWithin(active, stopGap, n);
      }
    } else {
      assert active[..n] == active;
      ShortWithin(active, stopGap, n);
    }
  }

  /** An active index beyond the stop is too far from every active index before it. */
  lemma FirstBeyond(active: seq<bool>, stopGap: nat, n: nat, i: nat)
    requires i < n < |active| && n - 1 > i + stopGap && active[i]
    requires forall j :: i < j < n ==> !active[j]
    requires LastActive(active) != Some(i)
    ensures !GapsAreShort(active, stopGap)
  {
    var j := NextActive(active, n, LastActive(active).value);
    assert forall x :: 0 <= x < j && active[x] ==> j - x > stopGap + 1;
  }

  lemma {:induction false} NextActive(active: seq<bool>, n: nat, last: nat) returns (j: nat)
    requires n <= last < |active| && active[last]
    ensures n <= j <= last && active[j] && forall x :: n <= x < j ==> !active[x]
    decreases last - n
  {
    if active[n] { j := n; } else { j := NextActive(active, n + 1, last); }
  }

  /** Within the scanned part gaps are short. */
  lemma ShortWithin(active: seq<bool>, stopGap: nat, n: nat)
    requires Scanned(active, stopGap, n)
    requires active != [] && active[0] && |active| + stopGap <= U32_RANGE
    requires forall j :: n <= j < |active| ==> !active[j]
    ensures GapsAreShort(active, stopGap)
  {
    forall j | 0 < j < |active| && active[j] ensures exists i :: 0 <= i < j && active[i] && j - i <= stopGap + 1 {
      StopsBeyondGap(active, stopGap, j - 1);
      var i := LastActive(active[..j - 1 + 1]).value;
      assert active[..j][i] == active[i];
    }
  }

  /** An inactive first index ends the scan at once. */
  lemma InactiveFirstEndsScan(active: seq<bool>, stopGap: nat, n: nat)
    requires Scanned(active, stopGap, n) && active != [] && !active[0]
    ensures n == 1
  {
    assert LastActive(active[..1]).None? by {
      assert forall i :: 0 <= i < 1 ==> active[..1][i] == active[0];
    }
    assert StopsAfter(active, stopGap, 0);
  }

  /**
   * A scan without a keychain passes the greatest gap, which wraps the limit of every active index but 0 to the
   * index below it. It scans everything exactly when index 0 is active and at most the last one after it is.
   */
  lemma UnlimitedScanIff(active: seq<bool>, n: nat)
    requires Scanned(active, 0xFFFF_FFFF_FFFF_FFFF, n) && 1 < |active| < 0x1_0000_0000
    ensures n == |active| <==> active[0] && forall i :: 0 < i < |active| - 1 ==> !active[i]
  {
    var gap := USIZE_MAX;
    assert gap == 0xFFFF_FFFF_FFFF_FFFF;
    if !active[0] {
      InactiveFirstEndsScan(active, gap, n);
    } else {
      forall k | 0 <= k < |active| ensures StopsAfter(active, gap, k) <==> LastActive(active[..k + 1]) != Some(0) {
        assert active[..k + 1][0];
        WrappedLimit(LastActive(active[..k + 1]).value);
      }
      forall k | 0 < k < |active| - 1 && active[k] ensures StopsAfter(active, gap, k) {
        assert active[..k + 1][k];
      }
      forall k | 0 <= k < |active| && StopsAfter(active, gap, k) ensures exists i :: 0 < i <= k && active[i] {
        var i := LastActive(active[..k + 1]).value;
        assert active[..k + 1][i] == active[i];
      }
    }
  }

  lemma WrappedLimit(i: nat)
    requires i < U32_RANGE
    ensures Limit(Some(i), USIZE_MAX) == Some(if i == 0 then U32_RANGE - 1 else i - 1)
  {
    assert USIZE_MAX % U32_RANGE == U32_RANGE - 1;
    if i > 0 { assert i + (U32_RANGE - 1) == (i - 1) + U32_RANGE; }
  }
}
