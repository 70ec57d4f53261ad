/** Construction of a local chain update from a remote chain (`update_local_chain`). */
module LocalChain {
  import opened Types

  type Hash = nat

  datatype BlockId = BlockId(height: nat, hash: Hash)

  type BlockMap = map<nat, Hash>

  const ASSUME_FINAL_DEPTH: nat := 15

  /** A checkpoint with everything below it, lowest block first; the tip is the last element. */
  ghost predicate Ascending(c: seq<BlockId>) {
    forall i, j :: 0 <= i < j < |c| ==> c[i].height < c[j].height
  }

  /** The remote server: its tip height, the hashes of its most recent blocks from the tip down, and block hashes by height. */
  datatype Remote = Remote(tip: Option<nat>, recent: Option<seq<Hash>>, blockHash: nat -> Option<Hash>)

  datatype Outcome = Update(chain: seq<BlockId>) | ApiError | Panic

  /** Heights from the tip down, zipped with the recent hashes. */
  function RecentBlocks(tip: nat, recent: seq<Hash>): (m: BlockMap)
    ensures forall h :: h in m <==> 0 <= h <= tip && tip - h < |recent|
    ensures forall h :: h in m ==> m[h] == recent[tip - h]
    decreases |recent|
  {
    if recent == [] then map[]
    else if tip == 0 then map[0 := recent[0]]
    else RecentBlocks(tip - 1, recent[1..])[tip := recent[0]]
  }

  ghost predicate Extends(f: BlockMap, g: BlockMap) {
    forall h :: h in g ==> h in f && f[h] == g[h]
  }

  /** The recent blocks together with the requested ones that are not above the tip. */
  ghost predicate Requested(g: BlockMap, tip: nat, recent: seq<Hash>, heights: set<nat>, blockHash: nat -> Option<Hash>) {
    var r := RecentBlocks(tip, recent);
    && Extends(g, r)
    && (forall h :: h in g && h !in r ==> h in heights && h <= tip && blockHash(h) == Some(g[h]))
    && (forall h :: h in heights && h <= tip ==> h in g)
  }

  method FetchBlocks(tip: nat, recent: seq<Hash>, heights: set<nat>, blockHash: nat -> Option<Hash>) returns (r: Result<BlockMap>)
    ensures r.Ok? ==> Requested(r.value, tip, recent, heights, blockHash)
    ensures r.Err? <==> exists h :: h in heights && h <= tip && h !in RecentBlocks(tip, recent) && blockHash(h).None?
  {
    var fetched: BlockMap := RecentBlocks(tip, recent);
    var rest := heights;
    while rest != {}
      invariant rest <= heights
      invariant Requested(fetched, tip, recent, heights - rest, blockHash)
      decreases |rest|
    {
      var height :| height in rest;
      rest := rest - {height};
      if height > tip {
        continue;
      }
      if height !in fetched {
        var hash := blockHash(height);
        if hash.None? {
          return Err;
        }
        fetched := fetched[height := hash.value];
      }
    }
    assert heights - rest == heights;
    return Ok(fetched);
  }

  /** The hash that a visited local block is compared with. */
  ghost predicate UpdatedHash(local: seq<BlockId>, j: nat, g: BlockMap, blockHash: nat -> Option<Hash>, hash: Hash)
    requires j < |local|
  {
    if local[j].height in g then hash == g[local[j].height]
    else if local[|local| - 1].height - local[j].height >= ASSUME_FINAL_DEPTH then hash == local[j].hash
    else blockHash(local[j].height) == Some(hash)
  }

  /** Every visited checkpoint has its updated hash in the map. */
  ghost predicate VisitedHashes(local: seq<BlockId>, g: BlockMap, blockHash: nat -> Option<Hash>, low: nat, f: BlockMap) {
    forall j :: low <= j < |local| ==> local[j].height in f && UpdatedHash(local, j, g, blockHash, f[local[j].height])
  }

  /** The walk adds only heights of visited checkpoints. */
  ghost predicate OnlyVisited(local: seq<BlockId>, g: BlockMap, low: nat, f: BlockMap) {
    forall h :: h in f && h !in g ==> exists j :: low <= j < |local| && local[j].height == h
  }

  /** `agreed` is the lowest visited checkpoint whose hash is the one in the map. */
  ghost predicate LowestAgreement(local: seq<BlockId>, low: nat, f: BlockMap, agreed: Option<nat>)
    requires forall j :: low <= j < |local| ==> local[j].height in f
  {
    match agreed
    case None => forall j :: low <= j < |local| ==> local[j].hash != f[local[j].height]
    case Some(a) =>
      && low <= a < |local| && local[a].hash == f[local[a].height]
      && forall j :: low <= j < a ==> local[j].hash != f[local[j].height]
  }

  /** The walk down the local chain has visited the checkpoints from `low` up, starting from the map `g`. */
  ghost predicate Walked(local: seq<BlockId>, g: BlockMap, blockHash: nat -> Option<Hash>, low: nat, f: BlockMap, agreed: Option<nat>) {
    && low <= |local|
    && Extends(f, g)
    && VisitedHashes(local, g, blockHash, low, f)
    && OnlyVisited(local, g, low, f)
    && LowestAgreement(local, low, f, agreed)
  }

  /** The walk ends at the bottom, or where it agrees and nothing fetched lies below. */
  ghost predicate WalkDone(local: seq<BlockId>, low: nat, f: BlockMap, agreed: Option<nat>) {
    low == 0 || (agreed == Some(low) && low < |local| && forall h :: h in f ==> h >= local[low].height)
  }

  /** The walk did not pass an agreement below which nothing had been fetched. */
  ghost predicate NoStopPassed(local: seq<BlockId>, g: BlockMap, low: nat, f: BlockMap) {
    forall j :: low < j < |local| && local[j].height in f && local[j].hash == f[local[j].height] ==>
      exists h :: h in g && h < local[j].height
  }

  /** The same for all visited checkpoints, the last one included. */
  ghost predicate PassedAll(local: seq<BlockId>, g: BlockMap, low: nat, f: BlockMap) {
    forall j :: low <= j < |local| && local[j].height in f && local[j].hash == f[local[j].height] ==>
      exists h :: h in g && h < local[j].height
  }

  lemma NothingPassed(local: seq<BlockId>, g: BlockMap)
    ensures PassedAll(local, g, |local|, g)
  {
  }

  lemma PassedStep(local: seq<BlockId>, g: BlockMap, i: nat, f: BlockMap, hash: Hash)
    requires Ascending(local) && 0 < i <= |local| && PassedAll(local, g, i, f)
    ensures NoStopPassed(local, g, i - 1, f[local[i - 1].height := hash])
  {
  }

  lemma PassedMore(local: seq<BlockId>, g: BlockMap, i: nat, f: BlockMap)
    requires i < |local| && NoStopPassed(local, g, i, f)
    requires local[i].height in f && local[i].hash == f[local[i].height] ==> exists h :: h in g && h < local[i].height
    ensures PassedAll(local, g, i, f)
  {
  }

  lemma PassedNone(local: seq<BlockId>, g: BlockMap, f: BlockMap)
    requires PassedAll(local, g, 0, f)
    ensures NoStopPassed(local, g, 0, f)
  {
  }

  /** The least height of the map, if it lies below all visited checkpoints, was fetched before the walk. */
  lemma LowestIsOld(local: seq<BlockId>, g: BlockMap, blockHash: nat -> Option<Hash>, i: nat, f: BlockMap, agreed: Option<nat>, h: nat)
    requires Ascending(local) && i < |local| && Walked(local, g, blockHash, i, f, agreed)
    requires h in f && h < local[i].height
    ensures h in g
  {
    forall j | i <= j < |local| ensures local[j].height != h {
    }
  }

  predicate IsLeast(k: nat, keys: set<nat>) {
    k in keys && forall x :: x in keys ==> k <= x
  }

  lemma {:induction false} LeastOf(keys: set<nat>) returns (k: nat)
    requires keys != {}
    ensures IsLeast(k, keys)
    decreases keys
  {
    k :| k in keys;
    var rest := keys - {k};
    assert forall x :: x in keys ==> x == k || x in rest;
    if rest != {} {
      var m := LeastOf(rest);
      if m < k { k := m; }
    }
  }

  /** The least key: the first entry of the ordered map. */
  method FirstKey(keys: set<nat>) returns (k: nat)
    requires keys != {}
    ensures IsLeast(k, keys)
  {
    ghost var least := LeastOf(keys);
    k :| k in keys && IsLeast(k, keys);
  }

  lemma WalkStarts(local: seq<BlockId>, g: BlockMap, blockHash: nat -> Option<Hash>)
    ensures Walked(local, g, blockHash, |local|, g, None)
  {
  }

  /** A checkpoint below all visited ones has a block in the map only if it was fetched before the walk. */
  lemma UnvisitedIsOld(local: seq<BlockId>, g: BlockMap, blockHash: nat -> Option<Hash>, i: nat, f: BlockMap, agreed: Option<nat>)
    requires Ascending(local) && 0 < i && Walked(local, g, blockHash, i, f, agreed)
    ensures local[i - 1].height in f <==> local[i - 1].height in g
    ensures local[i - 1].height in f ==> f[local[i - 1].height] == g[local[i - 1].height]
    ensures local[i - 1].height <= local[|local| - 1].height
  {
    assert forall j :: i <= j < |local| ==> local[j].height > local[i - 1].height;
  }

  lemma WalkStep(local: seq<BlockId>, g: BlockMap, blockHash: nat -> Option<Hash>, i: nat, f: BlockMap, agreed: Option<nat>,
                 hash: Hash)
    requires Ascending(local) && 0 < i && Walked(local, g, blockHash, i, f, agreed)
    requires UpdatedHash(local, i - 1, g, blockHash, hash)
    ensures Walked(local, g, blockHash, i - 1, f[local[i - 1].height := hash],
                   if local[i - 1].hash == hash then Some(i - 1) else agreed)
  {
    hide UpdatedHash, OnlyVisited;
    UnvisitedIsOld(local, g, blockHash, i, f, agreed);
    var t := f[local[i - 1].height := hash];
    assert forall j :: i <= j < |local| ==> local[j].height != local[i - 1].height;
    assert Extends(t, g) by {
      if local[i - 1].height in g { OldHash(local, i - 1, g, blockHash, hash); }
    }
    OnlyVisitedStep(local, g, i, f, hash);
  }

  lemma OnlyVisitedStep(local: seq<BlockId>, g: BlockMap, i: nat, f: BlockMap, hash: Hash)
    requires 0 < i <= |local| && OnlyVisited(local, g, i, f)
    ensures OnlyVisited(local, g, i - 1, f[local[i - 1].height := hash])
  {
  }

  lemma OldHash(local: seq<BlockId>, j: nat, g: BlockMap, blockHash: nat -> Option<Hash>, hash: Hash)
    requires j < |local| && UpdatedHash(local, j, g, blockHash, hash) && local[j].height in g
    ensures hash == g[local[j].height]
  {
  }

  method FindAgreement(local: seq<BlockId>, g: BlockMap, blockHash: nat -> Option<Hash>)
    returns (ok: bool, f: BlockMap, agreed: Option<nat>, ghost low: nat)
    requires Ascending(local)
    ensures ok ==> Walked(local, g, blockHash, low, f, agreed) && WalkDone(local, low, f, agreed)
    ensures ok ==> NoStopPassed(local, g, low, f)
    // the server is asked only about blocks less than fifteen below the local tip
    ensures !ok ==> exists j :: 0 <= j < |local| && local[j].height !in g && blockHash(local[j].height).None?
                                && local[|local| - 1].height - local[j].height < 15
  {
    hide Walked, Ascending, Extends, NoStopPassed, PassedAll;
    assert PassedAll(local, g, |local|, g) by { NothingPassed(local, g); }
    f := g;
    agreed := None;
    WalkStarts(local, g, blockHash);
    var i := |local|;
    while i > 0
      invariant 0 <= i <= |local| && Walked(local, g, blockHash, i, f, agreed)
      invariant PassedAll(local, g, i, f)
    {
      var block := local[i - 1];
      UnvisitedIsOld(local, g, blockHash, i, f, agreed);
      var updatedHash: Hash;
      if block.height in f {
        updatedHash := f[block.height];
      } else if local[|local| - 1].height - block.height >= ASSUME_FINAL_DEPTH {
        updatedHash := block.hash;
      } else {
        var hash := blockHash(block.height);
        if hash.None? {
          return false, f, agreed, i;
        }
        updatedHash := hash.value;
      }
      WalkStep(local, g, blockHash, i, f, agreed, updatedHash);
      PassedStep(local, g, i, f, updatedHash);
      f := f[block.height := updatedHash];
      if block.hash == updatedHash {
        agreed := Some(i - 1);
        assert block.height in f.Keys;
        var first := FirstKey(f.Keys);
        if first >= block.height {
          return true, f, agreed, i - 1;
        }
        LowestIsOld(local, g, blockHash, i - 1, f, agreed, first);
      }
      PassedMore(local, g, i - 1, f);
      i := i - 1;
    }
    PassedNone(local, g, f);
    return true, f, agreed, 0;
  }

  /** The update: the base with what lies below it locally, then exactly the fetched blocks above it. */
  ghost predicate IsUpdate(chain: seq<BlockId>, below: seq<BlockId>, f: BlockMap) {
    && below != [] && Ascending(chain) && below <= chain
    && forall b :: b in chain[|below|..] <==> b.height in f && f[b.height] == b.hash && b.height > below[|below| - 1].height
  }

  /** The blocks of `f` at heights above the base that are not in `rest` have been added, and all of `rest` is higher. */
  ghost predicate Built(chain: seq<BlockId>, below: seq<BlockId>, f: BlockMap, rest: set<nat>) {
    && below != [] && Ascending(chain) && below <= chain
    && (forall h :: h in rest ==> h in f && h > chain[|chain| - 1].height)
    && forall b :: b in chain[|below|..]
         <==> b.height in f && b.height !in rest && f[b.height] == b.hash && b.height > below[|below| - 1].height
  }

  lemma BuildStarts(below: seq<BlockId>, f: BlockMap)
    requires below != [] && Ascending(below)
    ensures Built(below, below, f, set h | h in f && h > below[|below| - 1].height)
  {
  }

  lemma BuildStep(chain: seq<BlockId>, below: seq<BlockId>, f: BlockMap, rest: set<nat>, height: nat)
    requires Built(chain, below, f, rest) && IsLeast(height, rest)
    ensures height > chain[|chain| - 1].height
    ensures Built(chain + [BlockId(height, f[height])], below, f, rest - {height})
  {
    var t := chain + [BlockId(height, f[height])];
    var n := |below|;
    assert t[n..] == chain[n..] + [BlockId(height, f[height])];
    assert below[n - 1].height <= chain[|chain| - 1].height;
    forall b ensures b in t[n..]
        <==> b.height in f && b.height !in rest - {height} && f[b.height] == b.hash && b.height > below[n - 1].height
    {
      assert b in t[n..] <==> b in chain[n..] || b == BlockId(height, f[height]);
    }
  }

  /** Extending the base by the fetched blocks above it, in ascending order; `pushed` is false if an extension failed. */
  method BuildChain(below: seq<BlockId>, f: BlockMap) returns (chain: seq<BlockId>, pushed: bool)
    requires below != [] && Ascending(below)
    ensures pushed && IsUpdate(chain, below, f)
  {
    var above := set h | h in f && h > below[|below| - 1].height;
    chain := below;
    pushed := true;
    BuildStarts(below, f);
    while above != {}
      invariant pushed && chain != [] && above <= f.Keys && Built(chain, below, f, above)
      decreases |above|
    {
      hide Built, IsUpdate, Ascending;
      var height := FirstKey(above);
      BuildStep(chain, below, f, above, height);
      above := above - {height};
      if height <= chain[|chain| - 1].height {
        pushed := false;
      }
      chain := chain + [BlockId(height, f[height])];
    }
  }

  /** A block hash the update needs and the server does not give: of a requested height, or of one of the local blocks less than fifteen deep. */
  ghost predicate MissingHash(local: seq<BlockId>, heights: set<nat>, remote: Remote) {
    || (remote.tip.Some? && exists h :: h in heights && h <= remote.tip.value && remote.blockHash(h).None?)
    || exists j :: 0 <= j < |local| && remote.blockHash(local[j].height).None?
                   && local[|local| - 1].height - local[j].height < 15
  }

  lemma WalkCoversLocal(local: seq<BlockId>, g: BlockMap, blockHash: nat -> Option<Hash>, low: nat, f: BlockMap, agreed: Option<nat>)
    requires Walked(local, g, blockHash, low, f, agreed) && WalkDone(local, low, f, agreed) && Ascending(local)
    ensures f == map[] ==> local == []
    ensures agreed.Some? ==> agreed.value < |local| && f != map[] && Ascending(local[..agreed.value + 1])
    ensures forall b: BlockId :: Ascending([b])
  {
    if local != [] && low == 0 { assert local[0].height in f; }
  }

  /** `local` is the local chain up to its tip, empty if there is none; `heights` are the requested heights. */
  method UpdateLocalChain(local: seq<BlockId>, heights: set<nat>, remote: Remote)
    returns (r: Outcome, ghost g: BlockMap, ghost f: BlockMap, ghost agreed: Option<nat>, ghost low: nat, ghost below: seq<BlockId>)
    requires Ascending(local)
    ensures r.Update? || r.Panic? ==>
              remote.tip.Some? && remote.recent.Some?
              && Requested(g, remote.tip.value, remote.recent.value, heights, remote.blockHash)
              && Walked(local, g, remote.blockHash, low, f, agreed) && WalkDone(local, low, f, agreed)
              && NoStopPassed(local, g, low, f)
    ensures r.Panic? ==> local == [] && f == map[]
    ensures r.Update? ==> f != map[] && IsUpdate(r.chain, below, f) && Below(local, f, agreed, below)
    ensures r.ApiError? ==> remote.tip.None? || remote.recent.None? || MissingHash(local, heights, remote)
  {
    hide Walked, WalkDone, NoStopPassed, Requested, IsUpdate, Ascending;
    if remote.tip.None? {
      return ApiError, map[], map[], None, 0, [];
    }
    if remote.recent.None? {
      return ApiError, map[], map[], None, 0, [];
    }
    var fetched := FetchBlocks(remote.tip.value, remote.recent.value, heights, remote.blockHash);
    if fetched.Err? {
      return ApiError, map[], map[], None, 0, [];
    }
    g := fetched.value;
    var ok, found, at, bottom := FindAgreement(local, fetched.value, remote.blockHash);
    if !ok {
      return ApiError, g, map[], None, 0, [];
    }
    f, agreed, low := found, at, bottom;
    WalkCoversLocal(local, fetched.value, remote.blockHash, bottom, found, at);
    var first: seq<BlockId>;
    if at.Some? {
      first := local[..at.value + 1];
    } else {
      if found == map[] {
        return Panic, g, f, agreed, low, [];
      }
      var height := FirstKey(found.Keys);
      first := [BlockId(height, found[height])];
    }
    below := first;
    var chain, pushed := BuildChain(first, found);
    if !pushed {
      return Panic, g, f, agreed, low, below;
    }
    r := Update(chain);
  }

  /** The base: the lowest visited agreeing checkpoint with its local predecessors, or the lowest fetched block. */
  ghost predicate Below(local: seq<BlockId>, f: BlockMap, agreed: Option<nat>, below: seq<BlockId>) {
    match agreed
    case Some(a) => a < |local| && below == local[..a + 1]
    case None =>
      |below| == 1 && below[0].height in f && f[below[0].height] == below[0].hash
      && forall h :: h in f ==> below[0].height <= h
  }

  /** A fetched block is in the update exactly when it does not lie below the base. */
  lemma FetchedInUpdateIff(local: seq<BlockId>, g: BlockMap, blockHash: nat -> Option<Hash>, low: nat, f: BlockMap,
                           agreed: Option<nat>, below: seq<BlockId>, chain: seq<BlockId>, h: nat)
    requires Ascending(local) && Walked(local, g, blockHash, low, f, agreed) && WalkDone(local, low, f, agreed)
    requires Below(local, f, agreed, below) && IsUpdate(chain, below, f)
    requires h in f
    ensures BlockId(h, f[h]) in chain <==> h >= below[|below| - 1].height
  {
    hide Walked;
    var n := |below|;
    var b := BlockId(h, f[h]);
    assert chain == below + chain[n..];
    if h > below[n - 1].height {
      assert b in chain[n..];
    } else if h == below[n - 1].height {
      assert b == below[n - 1] by { BaseIsFetched(local, g, blockHash, low, f, agreed, below); }
    } else {
      LowerIsLost(local, g, blockHash, low, f, agreed, below, h);
    }
  }

  lemma BaseIsFetched(local: seq<BlockId>, g: BlockMap, blockHash: nat -> Option<Hash>, low: nat, f: BlockMap,
                      agreed: Option<nat>, below: seq<BlockId>)
    requires Walked(local, g, blockHash, low, f, agreed) && Below(local, f, agreed, below) && below != []
    ensures var base := below[|below| - 1]; base.height in f && f[base.height] == base.hash
  {
  }

  /** A local block below the base either disagreed when it was visited, or was not visited because nothing fetched lies there. */
  lemma LowerIsLost(local: seq<BlockId>, g: BlockMap, blockHash: nat -> Option<Hash>, low: nat, f: BlockMap,
                    agreed: Option<nat>, below: seq<BlockId>, h: nat)
    requires Ascending(local) && Walked(local, g, blockHash, low, f, agreed) && WalkDone(local, low, f, agreed)
    requires Below(local, f, agreed, below) && below != []
    requires h in f && h < below[|below| - 1].height
    ensures BlockId(h, f[h]) !in below
  {
    forall i | 0 <= i < |below| ensures below[i] != BlockId(h, f[h]) {
      if agreed.Some? && i < agreed.value {
        assert below[i] == local[i];
        if i < low { assert local[low].height > local[i].height; }
      }
    }
  }

  /** What is lost, in terms of the agreement that the walk found. */
  lemma NothingBelowAgreementIff(local: seq<BlockId>, g: BlockMap, blockHash: nat -> Option<Hash>, low: nat, f: BlockMap,
                                 agreed: Option<nat>, below: seq<BlockId>, chain: seq<BlockId>)
    requires Ascending(local) && Walked(local, g, blockHash, low, f, agreed) && WalkDone(local, low, f, agreed)
    requires Below(local, f, agreed, below) && IsUpdate(chain, below, f)
    ensures (forall h :: h in f ==> BlockId(h, f[h]) in chain)
            <==> agreed.None? || forall h :: h in f ==> h >= local[agreed.value].height
  {
    forall h | h in f ensures BlockId(h, f[h]) in chain <==> h >= below[|below| - 1].height {
      FetchedInUpdateIff(local, g, blockHash, low, f, agreed, below, chain, h);
    }
  }

  /** A checkpoint that the walk would find in agreement: with the block fetched, or by depth, or by asking the server. */
  ghost predicate Agrees(local: seq<BlockId>, g: BlockMap, blockHash: nat -> Option<Hash>, j: nat)
    requires j < |local|
  {
    UpdatedHash(local, j, g, blockHash, local[j].hash)
  }

  /** What can be said before the walk: nothing would agree, or some agreement lies below everything fetched. */
  ghost predicate CanKeepAll(local: seq<BlockId>, g: BlockMap, blockHash: nat -> Option<Hash>) {
    || (forall j :: 0 <= j < |local| ==> !Agrees(local, g, blockHash, j))
    || exists j :: 0 <= j < |local| && Agrees(local, g, blockHash, j) && forall h :: h in g ==> h >= local[j].height
  }

  /**
   * No block is lost from the update exactly when no checkpoint agrees, or one that agrees has nothing fetched
   * below it: a condition on the local chain, the blocks fetched before the walk and the server alone.
   */
  lemma NothingLostIff(local: seq<BlockId>, g: BlockMap, blockHash: nat -> Option<Hash>, low: nat, f: BlockMap,
                       agreed: Option<nat>, below: seq<BlockId>, chain: seq<BlockId>)
    requires Ascending(local) && Walked(local, g, blockHash, low, f, agreed) && WalkDone(local, low, f, agreed)
    requires NoStopPassed(local, g, low, f)
    requires Below(local, f, agreed, below) && IsUpdate(chain, below, f)
    ensures (forall h :: h in f ==> BlockId(h, f[h]) in chain) <==> CanKeepAll(local, g, blockHash)
  {
    hide IsUpdate, Below;
    NothingBelowAgreementIff(local, g, blockHash, low, f, agreed, below, chain);
    forall j | low <= j < |local|
      ensures local[j].height in f && (Agrees(local, g, blockHash, j) <==> local[j].hash == f[local[j].height])
    {
      assert UpdatedHash(local, j, g, blockHash, f[local[j].height]);
    }
    if j :| 0 <= j < |local| && Agrees(local, g, blockHash, j) && forall h :: h in g ==> h >= local[j].height {
      assert j <= low;
    }
  }

  /**
   * Every requested height that is not above the remote tip, and every recent block, is in the update when no local
   * checkpoint agrees, or one that agrees has nothing fetched below it, as an agreeing block at height 0 has.
   */
  lemma RequestsAreKept(local: seq<BlockId>, tip: nat, recent: seq<Hash>, heights: set<nat>, g: BlockMap,
                        blockHash: nat -> Option<Hash>, low: nat, f: BlockMap, agreed: Option<nat>,
                        below: seq<BlockId>, chain: seq<BlockId>)
    requires Ascending(local) && Walked(local, g, blockHash, low, f, agreed) && WalkDone(local, low, f, agreed)
    requires NoStopPassed(local, g, low, f) && Requested(g, tip, recent, heights, blockHash)
    requires Below(local, f, agreed, below) && IsUpdate(chain, below, f) && CanKeepAll(local, g, blockHash)
    ensures forall h :: h in heights && h <= tip ==> exists b :: b in chain && b.height == h
    ensures forall h :: h in RecentBlocks(tip, recent) ==> BlockId(h, RecentBlocks(tip, recent)[h]) in chain
  {
    NothingLostIff(local, g, blockHash, low, f, agreed, below, chain);
    assert forall h :: h in f ==> BlockId(h, f[h]) in chain;
    forall h | h in heights && h <= tip ensures exists b :: b in chain && b.height == h {
      assert BlockId(h, f[h]) in chain;
    }
    forall h | h in RecentBlocks(tip, recent) ensures BlockId(h, RecentBlocks(tip, recent)[h]) in chain {
      assert f[h] == RecentBlocks(tip, recent)[h];
    }
  }

  /** The server answers from one fixed chain. */
  ghost predicate Serves(blockHash: nat -> Option<Hash>, tip: nat, recent: seq<Hash>, truth: nat -> Hash) {
    && (forall h :: blockHash(h).Some? ==> blockHash(h).value == truth(h))
    && (forall h :: h in RecentBlocks(tip, recent) ==> RecentBlocks(tip, recent)[h] == truth(h))
  }

  /** Local blocks fifteen or more below the local tip are right, and a right local block has only right ones below it. */
  ghost predicate Consistent(local: seq<BlockId>, truth: nat -> Hash) {
    && (forall j :: 0 <= j < |local| && local[|local| - 1].height - local[j].height >= 15
          ==> local[j].hash == truth(local[j].height))
    && (forall i, j :: 0 <= i < j < |local| && local[j].hash == truth(local[j].height) ==> local[i].hash == truth(local[i].height))
  }

  /** The final fetched map is part of the remote chain, whichever of the three sources supplied a hash. */
  lemma WalkFollowsRemote(local: seq<BlockId>, tip: nat, recent: seq<Hash>, heights: set<nat>, g: BlockMap,
                          blockHash: nat -> Option<Hash>, low: nat, f: BlockMap, agreed: Option<nat>, truth: nat -> Hash)
    requires Walked(local, g, blockHash, low, f, agreed) && Requested(g, tip, recent, heights, blockHash)
    requires Serves(blockHash, tip, recent, truth) && Consistent(local, truth)
    ensures forall h :: h in f ==> f[h] == truth(h)
  {
    forall h | h in f ensures f[h] == truth(h) {
      if h in g {
        assert f[h] == g[h];
      } else {
        var j :| low <= j < |local| && local[j].height == h;
        assert UpdatedHash(local, j, g, blockHash, f[h]);
      }
    }
  }

  /** The update follows the remote chain. */
  lemma UpdateFollowsRemote(local: seq<BlockId>, tip: nat, recent: seq<Hash>, heights: set<nat>, g: BlockMap,
                            blockHash: nat -> Option<Hash>, low: nat, f: BlockMap, agreed: Option<nat>,
                            below: seq<BlockId>, chain: seq<BlockId>, truth: nat -> Hash)
    requires Walked(local, g, blockHash, low, f, agreed) && Requested(g, tip, recent, heights, blockHash)
    requires Below(local, f, agreed, below) && IsUpdate(chain, below, f)
    requires Serves(blockHash, tip, recent, truth) && Consistent(local, truth)
    ensures forall b :: b in chain ==> b.hash == truth(b.height)
  {
    WalkFollowsRemote(local, tip, recent, heights, g, blockHash, low, f, agreed, truth);
    assert chain == below + chain[|below|..];
    forall b | b in below ensures b.hash == truth(b.height) {
      if agreed.Some? {
        var i :| 0 <= i < |below| && below[i] == b;
        assert local[i] == b;
      }
    }
  }
}
