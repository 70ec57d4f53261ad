# Verified model of the mempool wallet connector

A Dafny model of `mwck-rs`, a library that keeps the transaction history of watched bitcoin scripts in step with a
mempool server: it takes websocket events as they come, repairs itself from a paged REST history after every
reconnection, and reports balances. The `bdk_mempool` example crate turns the server's blocks into a chain update for
a local wallet. The model follows the code: the same branches, limits, comparison operators and integer widths.

`dafny verify dfyconfig.toml` checks everything.

## Files

| file | what it holds |
|---|---|
| `Types.dfy` | transactions, events, `Option` with Rust's order, maps built by insertion |
| `TxOrder.dfy` | `cmp_tx_time`, sorting, the state list of a map |
| `EventLog.dfy` | the effect of events on a map, replaying parts of a log |
| `Balances.dfy` | exact sums over a map, the wrapping 64-bit counters, `total` and `get` |
| `Unspent.dfy` | outputs owned, spent and unspent, and what the balance has to do with them |
| `Tracker.dfy` | class `Tracker`: the address tracker, updated in place |
| `Api.dfy` | the paged download loop |
| `WalletSync.dfy` | what one synchronisation does to a map, and when that is the server's history |
| `Wallet.dfy` | class `Wallet`: trackers by script, `watch`, `unwatch`, reconnection, synchronisation |
| `Recovery.dfy`, `CatchUpLoss.dfy` | runs of a tracker against a server, with connections lost and subscriptions taking effect at any point; runs that end with the wrong set |
| `Subscriber.dfy` | what a subscriber of the wallet can know from the events it is told of |
| `Message.dfy` | class `Manager` of the message task: payloads into events, and their effect on the wallet |
| `Control.dfy`, `Subscription.dfy` | class `Manager` of the control task; agreement of subscriptions over runs |
| `Ping.dfy` | class `Manager` of the ping task; keep-alive runs |
| `Connection.dfy`, `Lifecycle.dfy` | the main connection loop; all interleavings of it with the tasks of its connections |
| `LocalChain.dfy` | the chain update |
| `GapScan.dfy` | the scan of one keychain |

Classes hold the variables the source updates in place; each method is proved against a function of the old state, and
the theorems are about those functions. Concurrent parts are step relations over atomic actions, with any interleaving.

## Assumptions

- A transaction is confirmed exactly when it has a block height (`ProperStatus`). `OrderSoundIffProperStatus` shows that
  any other status breaks the order of transactions.
- A server history lists distinct transactions, unconfirmed first and then by descending height, and does not change
  during one download. There are no reorganisations: a confirmed transaction keeps its block, and later blocks have no
  smaller heights. `VanishedConfirmedStays` shows what happens otherwise.
- No order is assumed between a connection, its subscription taking effect and a download: a subscription only goes
  into a channel (src/wallet/mod.rs:184, 337; src/socket/connection.rs:77-81) that the control task works off later
  (src/socket/control.rs:78-92). An address event is taken to reach the tracker once the subscription is in effect.
- The tasks of a connection do not fail by themselves (`Lifecycle`); what a failed one does to the main loop is part of
  `Connection`.
- Broadcast channels do not lag, except the disconnect channel, whose capacity of one is modelled. The wallet handles
  `Connected` before any address event of the same connection.
- Pages, block hashes, send results, connection results and the clock are parameters.
- Release arithmetic: additions and subtractions wrap. Where a checked build would panic, `Tracker.overflowed` is set;
  it is set exactly when a recomputed sum does not fit 64 bits.

## Where the code departs from its documentation

- The download stops strictly below the height (src/api/mod.rs:88-92), although its comment says "at or below"
  (src/api/mod.rs:60-63), and needs both limits, not either. `NonStrictStopLoses` shows that the comment's version
  would lose transactions.
- A tracker that has received everything need not hold the server's set (`EveryRunConvergesIff`). It does if its last
  download was complete, its subscription was in effect before that download, and no events of an earlier connection
  were in its queue. Nothing orders subscription and download, and an event announced between a download and the
  subscription never arrives (`LateSubscriptionConvergesIff`, `LateSubscriptionMisses`). A failed download leaves the
  tracker loading and keeps its queue (src/wallet/mod.rs:269, 285-288), which a later download drains over newer data
  (`StaleQueueConvergesIff`, `StaleQueueResurrects`).
- A download after a lost connection repairs the tracker if the tracker was not behind when its synchronised phase
  ended: if it then held something confirmed above a confirmation it had missed, or that replayed events had put back,
  it is not recoverable (`RecoverableIffNotBehind`, `RecoverableIffSafeEnd`). That can happen with a late subscription
  and with a stale queue; with neither, only when the connection is lost during the catch-up with events older than
  the snapshot (`RecoverableIffNotRegressed`, `DropDuringCatchUpLoses`). A tracker
  that is not recoverable is repaired only if the download happens to cover what it lacks (`EveryRunSyncsIff`).
- `watch` sends its subscription before it inserts its scripts (src/wallet/mod.rs:184-198). With nothing under way,
  server and wallet agree exactly when the present connection was asked for every watched script and not asked to
  forget it again (`SubscriptionAgreement`, `ConcurrentUnwatchDisagrees`, `WatchAcrossReconnectDisagrees`).
- A removal is announced to the wallet's subscribers as a confirmation (src/wallet/address/mod.rs:179-186), although the
  transaction is gone and, after a download, was never confirmed. A subscriber that applies what it is told keeps up with
  the tracker exactly when nothing is removed (`ReplicaFollowsIff`, `SyncReplicaIff`).
- `watch` panics if another task unwatches one of its scripts during its downloads (src/wallet/mod.rs:207-208).
- A disconnect signal reaches only who has subscribed (src/socket/connection.rs:152-154). A connection whose tasks are
  gone can keep the main loop waiting when neither the loop nor the control task was listening (`LifecycleSafety`,
  `EarlySignalIsLost`).
- The gap scan ends at once if the first script is inactive, and a scan without a keychain usually ends early, because
  its limit wraps (`InactiveFirstEndsScan`, `UnlimitedScanIff`).

## Model

| member | source | states |
|---|---|---|
| TxOrder.OrderSoundIffProperStatus | src/wallet/address/mod.rs:104-122 | a status can be mixed with proper ones without making the comparison cyclic exactly when it is proper itself |
| TxOrder.CanonicalState | src/wallet/address/mod.rs:148-156 | sorting any listing of a map gives the same sorted listing, with all confirmed transactions before all unconfirmed ones |
| TxOrder.StateUnique | src/wallet/address/mod.rs:148-156 | a map has only one sorted listing |
| TxOrder.StateIffChronological | src/wallet/address/mod.rs:104-156 | the sorted listing is the one with confirmed transactions first, by height and in one block by id, then the unconfirmed ones by id |
| TxOrder.NewestIsHighest | src/wallet/mod.rs:278-283 | the reverse `find` yields a transaction of the greatest confirmed height held, the one with the greatest id of its block, or nothing exactly when nothing is confirmed |
| EventLog.LastEventDecides | src/wallet/address/mod.rs:158-188 | after any list of events each transaction is where the last event about it put it |
| EventLog.SnapshotPlusLog | src/wallet/mod.rs:246-330 | a snapshot of time t with all events from an earlier s to a later u replayed over it is the server's set at u |
| EventLog.StaleQueueConvergesIff | src/wallet/mod.rs:269-325 | a queue left by an earlier connection does no harm exactly when, for transactions the new stream is silent about, its last event says what the snapshot says |
| EventLog.ReplayConvergesIff | src/wallet/mod.rs:246-330 | events replayed over any map give the server's set exactly when the map agrees with the server on every transaction the events are silent about |
| EventLog.LateSubscriptionConvergesIff | src/wallet/mod.rs:184-206 | a subscription that takes effect after the snapshot does no harm exactly when, for transactions the stream is silent about, the last event missed says what the snapshot says |
| Balances.RecomputedWithout | src/wallet/address/mod.rs:198-256 | the recomputed sums are the same whichever transaction is taken out first, so they do not depend on the map's order |
| Balances.HalvesByStatus | src/wallet/address/mod.rs:198-256 | the confirmed half is the sums of the confirmed transactions, the mempool half those of the others |
| Balances.GetExactIff | src/wallet/address/mod.rs:54-60 | `get` is the `i64` congruent to the difference, and the exact difference exactly when an `i64` can hold it |
| Balances.TotalGetExact | src/wallet/address/mod.rs:54-82 | `total` is exact when the totals fit 64 bits, and then `get` is exact exactly when the balance fits an `i64` |
| Balances.StatusChangeKeepsTotal | src/wallet/address/mod.rs:198-229 | re-adding a transaction with another confirmation status leaves the total unchanged |
| Unspent.BalanceIsUnspentValue | src/wallet/address/mod.rs:198-256 | funded minus spent is the total value of the script's unspent outputs, for maps closed under spent outputs and free of double spends |
| Unspent.HalvesAreWorths | src/wallet/address/mod.rs:198-256 | each of the four sums is the worth of the outputs owned, or spent, by the transactions of its status |
| Unspent.TrackerHalves | src/wallet/address/mod.rs:198-256 | the four counters of a valid tracker object are those worths modulo 2^64 |
| Unspent.ReportedBalanceIff | src/wallet/address/mod.rs:52-83 | the reported total is that value exactly when it fits an `i64`, if the funded total fits the counters |
| Unspent.TrackerReportsUnspentIff | src/wallet/address/mod.rs:52-83 | the same for the counters of any valid tracker object |
| AddressTracker.Tracker.AddTransaction | src/wallet/address/mod.rs:198-229 | the map gains or replaces one entry; the four counters stay the recomputed sums modulo 2^64; an overflow happens exactly when a recomputed sum does not fit |
| AddressTracker.Tracker.RemoveTransaction | src/wallet/address/mod.rs:231-256 | the map loses one entry; the counters stay the recomputed sums; no subtraction underflows unless an addition overflowed before |
| AddressTracker.Tracker.ProcessEvent | src/wallet/address/mod.rs:158-188 | a real-time event is queued while loading, and nobody is told; any other event acts on the map and is announced, as mempool or, a removal too, as confirmed |
| AddressTracker.Tracker.SetLoading | src/wallet/address/mod.rs:190-196 | leaving the loading state applies and announces the whole queue in order and empties it; nothing else changes |
| AddressTracker.Tracker.DrainQueue | src/wallet/address/mod.rs:258-262 | the queue is applied oldest first; an overflow happens exactly when some map on the way has sums that do not fit |
| AddressTracker.Tracker.GetState | src/wallet/address/mod.rs:148-156 | the chronological listing of the map, whatever the iteration order, with the counters |
| AddressTracker.Tracker.From | src/wallet/address/mod.rs:137-146 | the map built from the saved list, the last of several copies of a transaction counting, with counters equal to its recomputed sums |
| AddressTracker.RebuildRoundTrip | src/wallet/address/mod.rs:137-156 | the list saved from a map gives the map back, and is saved again as the same list |
| AddressTracker.Rebuild | src/wallet/address/mod.rs:137-156 | the same on objects: equal map, equal counters |
| Api.FetchedLength | src/api/mod.rs:58-93 | the least stopping point of the download, or the whole history if there is none |
| Api.FetchAddressHistory | src/api/mod.rs:64-111 | the loop ends; it returns the reversed prefix of that length, fifty transactions a request or everything, never less than the id and the height asked for; it fails exactly when one of the requests needed fails |
| WalletSync.StopsAtIffEndsBelow | src/api/mod.rs:83-105 | for an ordered history the download may stop exactly after full pages of fifty that contain the id and end strictly below the height |
| WalletSync.MergeIsHistoryIff | src/wallet/mod.rs:290-323 | a downloaded prefix is enough exactly when the rest is already held as confirmed and nothing confirmed is held that the history lacks |
| WalletSync.PartialSyncIsFullSync | src/wallet/mod.rs:271-323 | for a recoverable tracker the map after fetching, removing and merging is the whole history, including pages never fetched |
| WalletSync.FirstSyncIsHistory | src/wallet/mod.rs:271-323 | a new tracker ends with the whole history |
| WalletSync.VanishedConfirmedStays | src/wallet/mod.rs:295-305 | a confirmed transaction the server no longer has survives every synchronisation |
| WalletSync.NonStrictStopLoses | src/api/mod.rs:60-92 | a block of fifty-one transactions that a non-strict stop would not repair |
| WalletClient.FindLimits | src/wallet/mod.rs:278-283 | the limits are the greatest confirmed height held and the greatest id of that block, or neither exactly if nothing held is confirmed |
| WalletClient.RemoveUnfetched | src/wallet/mod.rs:290-305 | the reverse walk removes exactly the unconfirmed transactions that were not fetched, and announces each once, as confirmed |
| WalletClient.WalkSeesUnconfirmed | src/wallet/mod.rs:295-297 | the height condition of the walk never selects a confirmed transaction |
| WalletClient.MergeFetched | src/wallet/mod.rs:309-323 | the fetched transactions are added in order, each announced as confirmed or mempool by its status |
| WalletClient.SyncAddressHistory | src/wallet/mod.rs:262-330 | success: the synchronised map with the queue applied over it, queue empty, not loading, with the announcements of the dropped, the fetched and the queued; failure, exactly when a request needed fails: map, queue, balance and announcements stay, only `loading` is set |
| WalletClient.Wallet.HandleAddressEvent | src/wallet/mod.rs:246-260 | the event reaches the tracker of its script and no other; unknown scripts are ignored |
| WalletClient.Wallet.Watch | src/wallet/mod.rs:182-212 | one subscription is sent; known scripts keep their trackers untouched; new ones are synchronised from nothing; the states are returned in order; it panics exactly when another task has unwatched one of its scripts during the downloads |
| WalletClient.Wallet.Unwatch | src/wallet/mod.rs:214-224 | exactly the named scripts are dropped and unsubscribed, the other trackers are the same objects |
| WalletClient.Wallet.InitAddresses | src/wallet/mod.rs:332-343 | one subscription to exactly the watched scripts, then every tracker synchronised, failures ignored |
| Recovery.ConfirmedSince | src/wallet/mod.rs:246-330 | in a server log, a confirmed transaction was confirmed before or by an event in between |
| Recovery.RecoverableGrows | src/wallet/mod.rs:278-283 | nothing the server does while the client is away makes a recoverable tracker unrecoverable |
| Recovery.HeldIsServers | src/wallet/mod.rs:246-330 | whatever part of the log is replayed over a snapshot, what the tracker holds as confirmed is the server's |
| Recovery.RecoverableIffNotBehind | src/wallet/mod.rs:246-330 | for any stale queue and any stream over a snapshot, the tracker is recoverable exactly when it holds nothing confirmed above a confirmation it has missed or been talked out of |
| Recovery.BehindInOrderIff | src/wallet/mod.rs:246-330 | with the subscription first and no stale queue, that is exactly a catch-up that has put back a transaction confirmed below the highest height held |
| Recovery.RecoverableIffNotRegressed | src/wallet/mod.rs:246-330 | so in that case the tracker is recoverable exactly when nothing was put back, and always once it has caught up |
| Recovery.StepKeepsInv | src/wallet/mod.rs:246-343 | every step of server, connection, subscription, delivery and synchronisation keeps the account of queue and map |
| Recovery.StepKeepsSound | src/wallet/mod.rs:246-343 | unless a synchronised phase ends behind, snapshots are the server's sets and an unsynchronised tracker is recoverable |
| Recovery.EveryRunConvergesIff | src/wallet/mod.rs:246-343 | over every run, a synchronised tracker holds the server's set at the last event delivered exactly when the snapshot with the stale queue agrees on what the stream is silent about; a complete snapshot after the subscription and no stale queue suffice |
| Recovery.EveryRunSyncsIff | src/wallet/mod.rs:262-343 | over every run, nothing is held as confirmed that the server does not have, and the next synchronisation yields the server's set exactly when everything it does not download is held already |
| Recovery.EveryRunRecovers | src/wallet/mod.rs:262-343 | over every run whose synchronised phases end safely, every snapshot is the server's set, and the next synchronisation yields it with any history the server may return |
| Recovery.RecoverableIffSafeEnd | src/wallet/mod.rs:262-343 | from the end of a synchronised phase to the next successful synchronisation, whatever happens, the tracker is recoverable exactly when that end was safe |
| Recovery.SyncIsPossible | src/wallet/mod.rs:262-330 | in every reachable state the server has a history with which a synchronisation can succeed |
| Recovery.SyncFailIsFailedDownload | src/wallet/mod.rs:269-288 | the failing step of a run is what a download with a failed request does to the tracker: map and queue stay, `loading` is set |
| CatchUpLoss.DropDuringCatchUpLoses | src/wallet/mod.rs:246-330 | a run from the start into a catch-up, and its continuation over a lost connection and a new synchronisation, that ends with a transaction missing for good |
| CatchUpLoss.StaleQueueResurrects | src/wallet/mod.rs:285-288 | a run with a failed download and a lost connection that ends with a dropped transaction back for good |
| CatchUpLoss.LateSubscriptionMisses | src/wallet/mod.rs:332-343 | a run whose subscription takes effect after the download: a confirmation never arrives, and after a higher one the tracker is not recoverable |
| Subscriber.ReplicaFollowsIff | src/wallet/address/mod.rs:165-187 | a subscriber's replica follows the tracker through any events exactly when no transaction's last event is a removal |
| Subscriber.SyncReplicaIff | src/wallet/mod.rs:290-325 | after a download a replica agrees exactly when every dropped transaction came back with the queue and the queue ends no transaction with a removal |
| MessageManager.Manager.NotifySpkTransactions | src/socket/message.rs:116-153 | of every script of the payload one `Removed`, then `Mempool`, then `Confirmed` event for each transaction of those lists, in order, and no other events |
| MessageManager.TrackersAreIndependent | src/wallet/mod.rs:246-260 | each tracker ends as if it had received only its own events, in their order |
| MessageManager.PayloadOrderIrrelevant | src/socket/message.rs:116-134 | a payload has the same effect on all trackers for every iteration order of its script map |
| MessageManager.PayloadPrecedence | src/socket/message.rs:116-134 | a transaction in several lists of one script ends as confirmed, else mempool, else removed; others stay |
| Control.OnlyChangesExtend | src/socket/control.rs:78-107 | a message that changes the tracked set extends a series in which every tracking message does |
| Control.SeriesReaches | src/socket/control.rs:62-111 | over any series of accepted commands every ping command reaches the server as one ping, all other messages change the tracked set, and the server ends with the set asked for |
| Control.Manager.Handle | src/socket/control.rs:65-111 | subscribing adds and unsubscribing removes the scripts; a ping sends one ping request, a changed set is sent once, nothing else is; a failed update ends the task with one disconnect signal; the close signal is sent at most once |
| Subscription.StepKeepsInv | src/wallet/mod.rs:182-224 | after every step of wallet, channel and control task the server is about to track what the present connection was asked for, which is watched or about to be |
| Subscription.SubscriptionAgreement | src/socket/control.rs:78-107 | over every run every message changed the set; when nothing is under way the server tracks a subset of the watched scripts, and all of them exactly when the present connection was asked for all of them |
| Subscription.SafeRunsAgree | src/wallet/mod.rs:184-198 | if every insertion comes before `Connected` is handled or is of scripts still asked for, a quiet state after it is one of agreement |
| Subscription.InsertKeepsAgreementIff | src/wallet/mod.rs:184-198 | the last `watch` in flight inserts and the control task empties its queue: server and wallet then agree exactly when the inserted scripts were still to be tracked |
| Subscription.ConcurrentUnwatchDisagrees | src/wallet/mod.rs:182-224 | a run in which an `unwatch` during a `watch` ends in disagreement |
| Subscription.WatchAcrossReconnectDisagrees | src/wallet/mod.rs:184-198 | a run in which a `watch` sent while offline ends in disagreement |
| PingManager.Manager.OnMessage | src/socket/message.rs:73-78 | a message counts as heard when it arrives and answers any ping; the invariant of keep-alive runs is kept |
| PingManager.Manager.Turn | src/socket/ping.rs:34-56 | a turn ends the loop exactly on a signal or on more than 60 seconds of silence it can see; it pings exactly after 30 to 60 seconds of silence with no ping outstanding, never while one is unanswered; a response of the last 30 seconds ends the wait; the invariant of keep-alive runs is kept |
| PingManager.KeepAliveRun | src/socket/ping.rs:27-56 | with a monotone clock pings are separated by responses, and the connection is given up only after more than sixty seconds of silence |
| PingManager.SilentTrace | src/socket/ping.rs:34-56 | the whole trace of a connection that falls silent: at most one ping, then giving up at the first turn past sixty seconds, whatever came before |
| PingManager.ResponseRestarts | src/socket/ping.rs:46-55 | after a response that a turn sees within thirty seconds the next silence is pinged and given up like the first |
| PingManager.PingPrecedesGivingUp | src/socket/ping.rs:40-55 | a ping comes first exactly when some turn falls between thirty and sixty seconds of silence, which turns at most thirty seconds apart guarantee |
| Connection.Manager.Start | src/socket/connection.rs:90-184 | the loop tells the story of its rounds, stays in the language of notifications, counts its attempts modulo 2^32, and panics exactly when it joins a failed task |
| Connection.TurnsInLanguage | src/socket/connection.rs:100-183 | whatever happens outside, notifications are a prefix of ((Error or Connected) Disconnected)* Connected Offline, all of it at the end; the counter is the number of attempts modulo 2^32; an `expect` fails exactly when a connection's tasks are joined and one has failed |
| Connection.TurnsTellStory | src/socket/connection.rs:100-183 | for all inputs the turns amount to rounds: a failed attempt and a disconnection, or a connection that a close request ends for good and any other wake-up with a disconnection and another round |
| Connection.OfflineOnlyOnClose | src/socket/connection.rs:150-183 | the loop goes offline, says so, or ends only if a close request ended a wait |
| Connection.WaitEnds | src/socket/connection.rs:150-181 | a close request is followed by `Offline` and the end; a signal or a dropped close sender by `Disconnected` and, if the inputs go on, another attempt |
| Lifecycle.StepKeepsInv | src/socket/connection.rs:100-265 | every atomic action of the main loop or of a task, in any order, keeps the lifecycle invariant |
| Lifecycle.LifecycleSafety | src/socket/connection.rs:100-265 | over every interleaving: one generation of tasks at a time, no failed `expect`, all tasks ended at the end; no wake-up is lost exactly when no task has ended, a close was sent, or the main loop or the control task heard a signal; joins are woken exactly when every task was running at some signal |
| Lifecycle.OfflineNeedsCloseRequest | src/socket/connection.rs:150-183 | over every interleaving the main loop ends, goes offline or says so only after a control task has sent a close request |
| Lifecycle.OrderlyRunsWake | src/socket/connection.rs:150-179 | if the tasks of a connection have all started before its first signal, no wake-up is lost and every join is woken |
| Lifecycle.WakeupInThreeSteps | src/socket/connection.rs:151-179 | from a connected state in which one of them heard a signal or a close was sent, some schedule of at most three enabled steps leaves it |
| Lifecycle.EarlySignalIsLost | src/socket/message.rs:61-96 | a run with an early signal after which nobody has anything to wake up for |
| LocalChain.FetchBlocks | examples/bdk_mempool/src/async_ext.rs:102-127 | the recent blocks and every requested block not above the tip; an error exactly when a needed hash is missing |
| LocalChain.FindAgreement | examples/bdk_mempool/src/async_ext.rs:129-173 | the walk ends at the bottom, or at the first agreement with nothing fetched below; it finds the lowest visited agreement, and fails only for a hash missing less than fifteen blocks below the local tip |
| LocalChain.BuildChain | examples/bdk_mempool/src/async_ext.rs:187-197 | no push fails; above the base the chain holds exactly the fetched blocks, ascending |
| LocalChain.UpdateLocalChain | examples/bdk_mempool/src/async_ext.rs:97-203 | all three phases: the update, an error only if something was missing, a panic only without local chain and fetched block |
| LocalChain.FetchedInUpdateIff | examples/bdk_mempool/src/async_ext.rs:155-197 | a fetched block is in the update exactly when it does not lie below the base |
| LocalChain.NothingLostIff | examples/bdk_mempool/src/async_ext.rs:129-197 | no block is lost exactly when no checkpoint agrees with the fetched, final or served hash, or one that agrees has nothing fetched below it |
| LocalChain.RequestsAreKept | examples/bdk_mempool/src/async_ext.rs:116-197 | under that condition, which an agreeing block at height 0 meets, all requested heights up to the tip and all recent blocks are in the update |
| LocalChain.UpdateFollowsRemote | examples/bdk_mempool/src/async_ext.rs:135-197 | if local blocks fifteen or more below the local tip are the remote ones, every block of the update is, whichever source supplied the hash |
| GapScan.Scan | examples/bdk_mempool/src/async_ext.rs:220-242 | the scan ends after the first index beyond its limit and reports the last active index scanned |
| GapScan.ScanFindsLastIff | examples/bdk_mempool/src/async_ext.rs:48-50 | with an active first index the scan finds the last active one exactly when no gap is longer than allowed |
| GapScan.InactiveFirstEndsScan | examples/bdk_mempool/src/async_ext.rs:235-237 | an inactive first index ends the scan |
| GapScan.UnlimitedScanIff | examples/bdk_mempool/src/async_ext.rs:68-90 | a scan without a keychain reaches the end exactly when only the first and perhaps the last index are active |

## Left out

- HTTP, JSON, TLS and websocket transport, the native and wasm modules, logging, `Display` and `Error`.
- The status broadcasts of the connection, `AddressReady` and the connection events of the wallet, and the waiting in `start` and `stop`.
- `get_and_watch`, `get_address_state`, `MempoolAsync` and `url_to_options`: lookups and delegation.
- The dispatch of websocket events in `Wallet::connect`: its two effects are `InitAddresses` and `HandleAddressEvent`.
- WalletClient.Wallet.Watch: of other tasks only calls of `unwatch` come in between; other calls of `watch` and events during its downloads are not interleaved here.
- Lifecycle.LifecycleSafety: is a safety statement; `stop` has no effect while no control task runs, and nothing is said about fairness.
- Recovery.EveryRunRecovers: for runs whose synchronised phases end safely; a tracker that is not recoverable may still be repaired if the download happens to cover what it lacks; `EveryRunSyncsIff` gives the exact condition over all runs.
- Recovery.EveryRunConvergesIff: is about one tracker, whose events are announced one at a time.
- TxOrder.SortByTime: the sort is an insertion sort; of the library sort only sortedness and permutation are used.
- LocalChain.FetchBlocks: visits requested heights in any order, not ascending; the result is the same.
- GapScan.Scan: consecutive indices from 0, and no failing downloads.
- Heights at the upper end of 32 bits, where `height + 1` would overflow, in the chain update.
- The transaction, txid and outpoint parts of `update_tx_graph`: calls into the graph library.
- Reorganisations, lagging event channels, histories that change during one download.
- wasm, where tasks have no join handles.
