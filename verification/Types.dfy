/** Value types shared by the wallet, the API client and the websocket code. */
module Types {

  datatype Option<+T> = None | Some(value: T)

  /** The source's `Result` with the error reduced to the fact that there was one. */
  datatype Result<+T> = Ok(value: T) | Err

  const U32_RANGE: nat := 0x1_0000_0000
  const U64_RANGE: nat := 0x1_0000_0000_0000_0000

  type U32 = n: nat | n < 0x1_0000_0000
  type U64 = n: nat | n < 0x1_0000_0000_0000_0000

  /** Transaction ids are compared as big-endian numbers; only their order and identity matter. */
  type Txid = nat

  type Script = string

  datatype TxStatus = TxStatus(confirmed: bool, blockHeight: Option<U32>)

  datatype TxOut = TxOut(scriptpubkey: Script, value: U64)

  datatype Vin = Vin(txid: Txid, vout: nat, prevout: Option<TxOut>)

  datatype Tx = Tx(txid: Txid, vin: seq<Vin>, vout: seq<TxOut>, status: TxStatus)

  datatype Event =
    | Removed(scriptpubkey: Script, tx: Tx)
    | Mempool(scriptpubkey: Script, tx: Tx)
    | Confirmed(scriptpubkey: Script, tx: Tx)

  type TxMap = map<Txid, Tx>

  /** A transaction is confirmed exactly when it carries a block height. */
  predicate ProperStatus(s: TxStatus) {
    s.confirmed <==> s.blockHeight.Some?
  }

  predicate Proper(tx: Tx) {
    ProperStatus(tx.status)
  }

  /** Every entry is stored under its own id. */
  ghost predicate Keyed(m: TxMap) {
    forall k :: k in m ==> m[k].txid == k
  }

  ghost predicate ProperMap(m: TxMap) {
    Keyed(m) && forall k :: k in m ==> Proper(m[k])
  }

  /** Rust's derived order on `Option`: `None` lies below every `Some`. */
  predicate OptionLess(a: Option<nat>, b: Option<nat>) {
    match (a, b)
    case (None, Some(_)) => true
    case (Some(x), Some(y)) => x < y
    case (_, None) => false
  }

  ghost predicate DistinctIds(s: seq<Tx>) {
    forall i, j :: 0 <= i < j < |s| ==> s[i].txid != s[j].txid
  }

  /** Inserting the transactions of `s`, first to last, into an empty map. */
  function MapOf(s: seq<Tx>): (m: TxMap)
    ensures forall k :: k in m ==> m[k].txid == k && m[k] in s
    ensures forall tx :: tx in s ==> tx.txid in m
  {
    if s == [] then map[] else MapOf(s[..|s| - 1])[s[|s| - 1].txid := s[|s| - 1]]
  }

  /** The last transaction of a list with the given id. */
  function WithId(txs: seq<Tx>, k: Txid): Option<Tx> {
    if txs == [] then None
    else if txs[|txs| - 1].txid == k then Some(txs[|txs| - 1])
    else WithId(txs[..|txs| - 1], k)
  }

  /** Of several transactions with one id the last one stays. */
  lemma {:induction false} MapOfKeepsLast(s: seq<Tx>, k: Txid)
    ensures k in MapOf(s) <==> WithId(s, k).Some?
    ensures k in MapOf(s) ==> Some(MapOf(s)[k]) == WithId(s, k)
  {
    if s != [] {
      MapOfKeepsLast(s[..|s| - 1], k);
    }
  }

  lemma {:induction false} MapOfDistinct(s: seq<Tx>)
    requires DistinctIds(s)
    ensures forall i :: 0 <= i < |s| ==> s[i].txid in MapOf(s) && MapOf(s)[s[i].txid] == s[i]
  {
    if s != [] {
      MapOfDistinct(s[..|s| - 1]);
      forall i | 0 <= i < |s| ensures s[i].txid in MapOf(s) && MapOf(s)[s[i].txid] == s[i] {
        if i < |s| - 1 { assert s[..|s| - 1][i] == s[i]; }
      }
    }
  }

  /** A duplicate-free listing of a map's values, in any order. */
  ghost predicate Lists(s: seq<Tx>, m: TxMap) {
    && DistinctIds(s)
    && (forall i :: 0 <= i < |s| ==> s[i].txid in m && m[s[i].txid] == s[i])
    && (forall k :: k in m ==> m[k] in s)
  }

  lemma ListsMapOf(s: seq<Tx>, m: TxMap)
    requires Lists(s, m) && Keyed(m)
    ensures MapOf(s) == m
  {
    MapOfDistinct(s);
    forall k | k in m ensures k in MapOf(s) && MapOf(s)[k] == m[k] {
      assert m[k] in s;
    }
    forall k | k in MapOf(s) ensures k in m {
      assert MapOf(s)[k] in s;
    }
  }

  lemma MapOfLists(s: seq<Tx>)
    requires DistinctIds(s)
    ensures Lists(s, MapOf(s)) && Keyed(MapOf(s))
  {
    MapOfDistinct(s);
  }
}
