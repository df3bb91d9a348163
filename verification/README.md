# kernel-node in Dafny

A model of the stateful core of kernel-node, a Bitcoin node on top of libbitcoinkernel, with proofs
about it. `dafny verify dfyconfig.toml` checks the whole project.

**Block download** (`Downloads`, `QueueBuilding`, `Messages`, `Peers`, `Handover`, `IdleDrain`,
`Refetches`, `Races`). `DownloadState` is a class with the source's queue, in-flight set and buffer.
`process_message` and `populate_download_queue` are methods on it. The peer threads, the connected
set and the validator form one state machine in which every step is one critical section of the
source, so releasing a delivered block and buffering it are two steps. Theorems quantify over all
runs: any number of threads, any messages, any interleaving, any active chain.

**Wallet** (`Ledger`, `Reorgs`, `Histories`, `WalletFile`, `Sends`). `Wallet` is a class whose
methods follow the source's loops. Which output keys are ours is an arbitrary per-transaction list of
finds; the taproot filter and the search for the output of a find are modelled. The ledger theorems reduce a block to what it does to one map entry: keep it, stamp it
spent, or put a new coin. Coin reservation is a second state machine over the wallet lock, the
one-place broadcast channel and the broadcast thread; the class `Sends.Office` carries out its steps
on a `Wallet`.

**Address book** (`AddressBook`, `AddressFile`). A table of `buckets * slots` cells with arbitrary
hash functions, selection with arbitrary random starts, and the file format with the BIP 155 address
encoding.

**Arithmetic** (`Locators`, `Base32`, `Bytes`). Block locators with their 32-bit step and the onion
address encoder with its wrapping 64-bit accumulator.

Six promises do not hold as they stand; each comes with a failing input and with the exact condition
under which it does.

- Hand-over in chain order fails when the validator looks at the buffer after a block was released
  from the in-flight set and before it is buffered: `Races.OutOfOrderRun` is such a run with one
  honest peer. It holds exactly if no take skips a parent in that gap (`Handover.PrefixInChainRun`).
- Each block is fetched once, says the design document. A second peer that ends its header sync while
  the validator has not yet connected a block it was given puts that block back into the queue:
  `Races.FetchedTwiceRun` is such a run with two honest peers. A peer that leaves puts back a block
  that another peer delivered in its place: `Races.LateReturnRun`. `Refetches.NoRefetchExactly` gives
  the condition on rebuilds, announcements, deliveries and departures, for every run and whatever the
  peers send. It is enough (`Refetches.FetchedOnce`) and needed (`Refetches.WantedAgainIsFetchedAgain`).
- A coin reserved by a send can be released by the failure of a raw broadcast that spends the same
  coin, and is then selected again: `Sends.DoubleSelectionRun` does so for every spendable coin, although
  the coin was unreserved when the raw transaction came in. `Sends.KeepsApartExactly` gives the two
  checks that keep raw and built transactions apart, which is enough, and `Sends.ApartIsNeeded` shows
  that it is needed.
- In a build with overflow checks `build_block_locators` panics from height 2^30 + 10 on and only
  there; a wrapping build is correct for every height.
- A wallet that is loaded and shown the tail of its chain again is where it was. Its coin map is, but
  a disconnect leaves the scan height of the block that is gone: `WalletFile.StaleScanHeight`. A replay
  restores the height exactly if the last event was a connect (`WalletFile.ReplayHeightExactly`).
- An address book with an IPv6 or CJDNS address that BIP 155 forbids can be written but not read
  back; reading succeeds exactly if every written address is well formed
  (`AddressFile.MappedAddressUnreadable`, `AddressFile.FileRebuildsTable`).

The documentation of `Table` asks for `W < B`; the code and the proofs need only `0 < W <= B`.

Assumptions, in the places where they are used: a block hash commits to its parent; connected blocks
bring new transaction ids and do not spend an output of the chain twice; the validator connects only
blocks it was given; a connected block is higher than the tip it extends; addresses are decoded with
the checks BIP 155 asks for, as the `bitcoin` crate does.
A spend need not come after its output, and replaying needs no assumption on the chain at all.

## Model

| member | source | states |
|---|---|---|
| Downloads.DownloadState.PopBatch | src/net/peer.rs:46-57 | takes the batch and leaves the queue and in-flight set that `PopFrom` describes; the buffer is untouched |
| Downloads.PopFacts | src/net/peer.rs:46-57 | a batch holds once each and in queue order exactly the unrequested hashes of the stretch of queue it consumed, and falls short of its size only if the queue is empty |
| Downloads.PopIsFifo | src/net/peer.rs:46-57 | without repeats or requested hashes in the queue a batch is the queue's front, in order |
| Downloads.DownloadState.Claim | src/net/peer.rs:59-64 | returns the announced hashes not in flight, marks exactly them in flight |
| Downloads.FreshFacts | src/net/peer.rs:59-64 | claimed hashes are distinct, in announced order, and exactly the announced ones not already in flight |
| Downloads.DownloadState.Release | src/net/peer.rs:66-68 | reports membership in the in-flight set and removes the hash |
| Downloads.DownloadState.RequeueUnreceived | src/net/peer.rs:70-79 | the first places of the queue hold exactly the unreceived hashes, once each, the old queue follows unchanged, and they leave the in-flight set |
| Downloads.DownloadState.BufferBlock | src/net/peer.rs:81-83 | stores the block under its parent, displacing a sibling |
| Downloads.DownloadState.TakeConnectable | src/net/peer.rs:89-101 | removes one block whose parent is active, else, only when idle, one whose parent is not buffered; returns nothing exactly when neither exists |
| Downloads.DownloadState.BufferHead | src/net/peer.rs:110-116 | finds an entry without buffered parent if there is one |
| IdleDrain.HeadExists | src/net/peer.rs:110-116 | every non-empty acyclic buffer has an entry whose parent is not buffered |
| IdleDrain.Remaining | src/net/peer.rs:89-101 | after any calls the buffer is the original minus the released keys, which are distinct |
| IdleDrain.IdleDrainsAll | src/net/peer.rs:89-116 | when idle, repeated takes over an acyclic buffer and any active chains release every block exactly once in as many calls as blocks, never a child before its parent unless the parent is active |
| QueueBuilding.PopulateDownloadQueue | src/net/peer.rs:220-269 | the walk ends and leaves the download state that `Populated` describes |
| QueueBuilding.WalkFindsBranch | src/net/peer.rs:229-241 | the walk succeeds exactly if some ancestor of the best header is active, and finds the linked branch above the last common ancestor |
| QueueBuilding.QueueIsBranch | src/net/peer.rs:242-269 | a rebuilt queue is exactly that branch in ascending height without repeats, minus buffered and in-flight hashes; otherwise nothing changes |
| QueueBuilding.NothingQueuedMeansHeld | src/net/peer.rs:251-259 | if the queue stays empty every block of the branch is buffered or in flight |
| QueueBuilding.QueueFromNothing | src/net/peer.rs:220-269 | with nothing held the queue is the whole branch, each block linked to the one before |
| Messages.ProcessMessage | src/net/peer.rs:296-470 | next state, replies with their locators, forwarded addresses and download state for every state and message are those of `Processed` |
| Messages.ProcessedAnswers | src/net/peer.rs:296-470 | what is said to the peer in every case: a pong of the nonce; getheaders with a locator of the best header exactly where header sync resumes; getdata with the next 16 unrequested blocks, or getblocks with a locator of the active tip exactly if there is nothing to request; all accepted unrequested announced blocks; otherwise nothing |
| Messages.ProcessedIsSteps | src/net/peer.rs:296-470 | handling a message undisturbed is exactly a sequence of that thread's steps in the state machine |
| Messages.RequestsAreDebts | src/net/peer.rs:315-469 | a getdata names distinct hashes nobody else had in flight, they become the peer's whole inventory, and without one no new hash is in flight |
| Peers.NoLeakInAnyRun | src/net/peer.rs:296-470 | in every run, whatever peers send, every in-flight hash is in some live thread's inventory |
| Peers.ExactInSolicitedRun | src/net/peer.rs:429-462 | with solicited deliveries the inventories are pairwise disjoint and their union is the in-flight set |
| Peers.SolicitedIsExact | src/net/peer.rs:433-437 | a step keeps that exact bookkeeping if and only if it delivers an own or an unawaited block |
| Peers.ExclusiveInAnyRun | src/net/manager.rs:150-202 | the connected set is exactly the destinations held and no two threads hold the same one |
| Peers.SettledBeforeRetaken | src/net/manager.rs:179-201 | each hash a thread owes is received or back in the queue and out of flight before its destination can be taken again |
| Peers.ReturnedComesFirst | src/net/peer.rs:70-79 | after a disconnect the next batch begins with everything the peer owed, or consists of nothing else if that is more than a batch |
| Handover.ConservedInChainRun | src/net/peer.rs:46-116 | the chain's hashes stay partitioned among queue, in-flight set, transit, buffer and validator, each at most once, whatever the split, arrival order and disconnects, and whatever further peers end their header sync without touching arrived blocks |
| Handover.SlotFree | src/net/peer.rs:81-83 | in such a run buffering never displaces a sibling |
| Handover.WorkShrinks | src/net/peer.rs:430-460 | each delivery of a requested block lowers 2*queue + in-flight, and only a disconnect can raise it |
| Handover.TakeIsNextExactly | src/net/peer.rs:89-101 | a take hands over the next block of the chain if and only if the parent it is stored under is not in transit |
| Handover.PrefixInChainRun | src/net/peer.rs:89-116 | over a whole run the blocks taken are at every moment a prefix of the chain, each once, if and only if no take skips a parent in transit |
| Handover.AtomicDeliveryInOrder | src/net/peer.rs:430-437 | with release and buffering as one step the prefix property holds in every run |
| Handover.InOrderExactly | src/net/peer.rs:93-100 | no take can leave chain order if and only if some parent is active, or the node is not idle, or no buffered block's parent is in transit |
| Handover.CompleteWhenDrained | src/net/peer.rs:89-101 | when everything is empty the validator has the whole chain |
| Handover.IdleTakeExists | src/net/peer.rs:96-100 | an idle node with a buffered block always has one to hand over |
| Handover.RestIsBuffered | src/net/peer.rs:89-101 | an idle node with nothing in transit has exactly the missing blocks buffered |
| Handover.DrainFinishesChain | src/net/peer.rs:89-116 | from there calls succeed until the buffer is empty, exactly as many as blocks of the chain were missing |
| Handover.PrefixSinceStart | src/net/peer.rs:89-116 | the same on the node's own run, whatever was handed over before: the blocks taken since the start are at every moment a prefix of the chain if and only if no take skips a parent in transit |
| Handover.BuiltQueueStartsChain | src/net/peer.rs:247-268 | a queue built from the headers starts such a chain if and only if everything requested or buffered belongs to it and nothing is in transit |
| Handover.BuiltChainInOrder | src/net/peer.rs:89-268 | from a built queue on, hand-over is in chain order if and only if no take skips a parent in transit |
| Handover.RebuildHarmlessExactly | src/net/peer.rs:248-259 | rebuilding while the same chain is being fetched changes nothing if and only if the queue is non-empty or no block of the rebuilt branch is in transit or with the validator |
| Races.OutOfOrderRun | src/net/peer.rs:435-437 | a concrete run from start-up in which an honest peer's upper block is handed over before the lower one |
| Refetches.AsksOnlyForNewExactly | src/net/peer.rs:46-83 | a step keeps arrived blocks out of queue and in-flight set if and only if a rebuild finds the queue in use or no arrived block its filter misses, an announcement names no arrived block, a delivered block is not queued again, and a leaving peer gives back no arrived block |
| Refetches.NoRefetchExactly | src/net/peer.rs:59-79 | over every run, whatever peers send, no arrived block is ever wanted again if and only if every step asks only for new blocks |
| Refetches.FetchedOnce | doc/design.md:5-8 | in such a run a block is accepted again only if a sibling was buffered over it in between |
| Refetches.WantedAgainIsFetchedAgain | src/net/peer.rs:429-437 | otherwise: whenever an arrived block is queued or requested again it was accepted before, and the run can go on with honest peers so that it is accepted again |
| Races.FetchedTwiceRun | src/net/peer.rs:251-268 | a concrete run from start-up with two honest peers in which one block is requested, delivered and accepted twice |
| Races.LateReturnRun | src/net/peer.rs:70-79 | a concrete run from start-up in which every step but a disconnect asks only for new blocks, the disconnect puts an arrived block back into the queue, and it is accepted a second time |
| Locators.BuildBlockLocators | src/net/peer.rs:197-218 | a checked build succeeds exactly up to height 2^30+9, a wrapping build always; the list follows the doubling depths, ends at genesis, and has at most 41 entries up to that height and 42 beyond |
| Locators.HeightsDescend | src/net/peer.rs:212-215 | locator heights strictly decrease |
| Locators.Spacing | src/net/peer.rs:203-216 | the ten blocks below the tip are named one by one, after that each distance is twice the one before |
| Locators.LocatorDescends | src/net/peer.rs:197-218 | a locator starts at the tip, names blocks of the chain in strictly descending height and ends at genesis |
| Locators.ForkWithinTwice | src/net/peer.rs:203-216 | the first locator at or below a fork is at most twice as deep as the fork |
| Ledger.MatchesAnswerFinds | crates/wallet/src/silentpayments/scanning.rs:52-65 | whatever keys the receiver reports, the matches are exactly those that are keys of taproot outputs of the transaction, each with the first such output |
| Ledger.ScanBlockInner | crates/wallet/src/silentpayments/scanning.rs:69-140 | filters the taproot outputs and lists the matches of every transaction but the coinbase as unspent coins of that height |
| Ledger.Wallet.ScanBlock | crates/wallet/src/silentpayments/wallet.rs:157-201 | without keys nothing changes; with keys the map becomes `Scan` of it, the height is set and the receipts are counted |
| Reorgs.ScanExactly | crates/wallet/src/silentpayments/wallet.rs:178-197 | read off the transactions: an entry is there exactly if it was or a transaction other than the coinbase pays it, a paid one has the value and script of its output, one that any input names is marked with the txid of such a transaction and the height, all else is unchanged |
| Ledger.Wallet.ProcessDisconnect | crates/wallet/src/silentpayments/wallet.rs:203-219 | the map becomes `Disconnect` of it: the block's coins go, its spends are forgotten, nothing else changes |
| Ledger.Wallet.ReleaseCoins | crates/wallet/src/silentpayments/wallet.rs:123-127 | exactly the given outpoints leave the reserved set |
| Reorgs.ScanPointwise | crates/wallet/src/silentpayments/wallet.rs:178-197 | scanning a block acts on each entry alone: keep, stamp with the last spender, or put the last receipt |
| Reorgs.RescanIsIdempotent | crates/wallet/src/silentpayments/wallet.rs:178-200 | scanning any stretch of chain twice is scanning it once, from any map |
| Reorgs.ReplayTail | crates/wallet/src/silentpayments/wallet.rs:178-200 | rescanning any tail of what was scanned ends with the same map |
| Reorgs.UndoExactly | crates/wallet/src/silentpayments/wallet.rs:203-219 | disconnecting right after connecting restores the map if and only if no coin was created by the block and no spent coin is touched by it |
| Reorgs.DisconnectUndoesConnect | crates/wallet/src/silentpayments/wallet.rs:157-219 | on valid chains disconnect exactly undoes connect |
| Reorgs.MapFollowsChain | src/bin/node.rs:302-353 | after any run of connects and disconnects the map, spent marks included, equals scanning only the blocks still connected |
| Histories.SortIsStable | crates/wallet/src/silentpayments/wallet.rs:260-263 | the sort orders by height, keeps every entry and keeps the order within one height |
| Histories.StableSortUnique | crates/wallet/src/silentpayments/wallet.rs:260-263 | any stable sort by height gives the same sequence |
| Histories.HistoryAgreesWithBalance | crates/wallet/src/silentpayments/wallet.rs:231-265 | for every iteration order history is sorted, has no negative running total, lists a receipt before its spend, and totals to the balance |
| Histories.ScannedIsChronological | crates/wallet/src/silentpayments/wallet.rs:190-195 | in every map built by scanning upwards no coin is spent below its own height |
| Histories.LedgerAndHistoryAgree | crates/wallet/src/silentpayments/wallet.rs:231-265 | the agreement of history and balance holds after every run of connects and disconnects |
| Histories.HistoryLists | crates/wallet/src/silentpayments/wallet.rs:240-258 | for every iteration order a history has the receipt of every coin once, the spend of every spent coin once, and nothing else |
| Histories.Balance | crates/wallet/src/silentpayments/wallet.rs:231-237 | the sum of the unspent coins in any iteration order, failing exactly if it exceeds 64 bits |
| Histories.UtxoCount | crates/wallet/src/silentpayments/wallet.rs:221-223 | the number of unspent coins |
| Histories.History | crates/wallet/src/silentpayments/wallet.rs:239-265 | the stably sorted entries of all coins in some iteration order, each receipt and each spend exactly once |
| WalletFile.EncodeRecord | crates/wallet/src/silentpayments/wallet_store.rs:244-281 | fills the 192-byte buffer with the fields at their offsets and zeros elsewhere, or fails exactly on a script that is not 34 bytes |
| WalletFile.RecordLayout | crates/wallet/src/silentpayments/wallet_store.rs:33-43 | the bytes at which a written record has each field, zeros where something is absent and in the reserved end |
| WalletFile.DecodeRecordExactly | crates/wallet/src/silentpayments/wallet_store.rs:283-344 | 192 bytes are a record if and only if flag, label tag and scalars are valid, it has the fields read off their places, and the first invalid one gives the error |
| WalletFile.RecordRoundTrip | crates/wallet/src/silentpayments/wallet_store.rs:283-344 | decoding an encoded coin gives back outpoint and coin |
| WalletFile.WalletToBytes | crates/wallet/src/silentpayments/wallet_store.rs:163-181 | succeeds exactly if every script is 34 bytes, then writes header and all records in some order |
| WalletFile.WalletFromBytes | crates/wallet/src/silentpayments/wallet_store.rs:183-211 | the checks in their order, then all records; equals `DecodeFile` on every input |
| WalletFile.DecodeFileExactly | crates/wallet/src/silentpayments/wallet_store.rs:183-211 | a file is accepted if and only if it has a header, the magic, version 1, a known network, exactly the announced length and only valid records; the first failing test gives the error |
| WalletFile.FileRoundTrip | crates/wallet/src/silentpayments/wallet_store.rs:163-211 | for every write order decoding gives back network, scan height and the whole coin map |
| WalletFile.ScannedIsStorable | crates/wallet/src/silentpayments/scanning.rs:84-150 | whatever was found by scanning any blocks has a 34-byte script, so saving cannot fail on it |
| WalletFile.CrashReplay | src/bin/node.rs:322-345 | save, load and replay of any tail of the chain gives the same coin map, and on rising heights the same scan height if and only if the tail is empty or the last event was a connect |
| WalletFile.ReplayHeightExactly | crates/wallet/src/silentpayments/wallet.rs:199-219 | replaying a non-empty tail restores the recorded height if and only if the last event was a connect |
| WalletFile.StaleScanHeight | crates/wallet/src/silentpayments/wallet.rs:203-219 | two connects and a disconnect leave scan height 2, and the replay of the remaining block ends at 1 |
| Sends.NoDoubleSelection | src/bin/node.rs:361-377 | over every interleaving two accepted transactions not reported failed share no input, as long as failing raw broadcasts do not release their coins |
| Sends.SelectsOnlyFree | crates/wallet/src/silentpayments/sending.rs:150-158 | a send selects only coins that are in the wallet, unspent, and in no live transaction |
| Sends.BackedInAnyRun | src/bin/node.rs:366-376 | in every run each reserved coin is an input of a transaction that was not reported failed |
| Sends.FailedCoinsReturn | src/bin/node.rs:366-376 | after a failed broadcast of a built transaction its unspent coins can be selected again at once |
| Sends.BroadcastInOrder | src/bin/node.rs:361-377 | in every run the transactions accepted for broadcast are, in order, those finished followed by the at most two pending: none lost, repeated or overtaken |
| Sends.KeepsApartExactly | src/ipc/wallet.rs:101-115 | raw and live transactions stay apart if and only if a pushed raw transaction spends no live input and a send selects no input of a pending raw transaction |
| Sends.NoDoubleSelectionForCallers | src/ipc/wallet.rs:145-165 | with these two checks at entry no double selection happens in any run |
| Sends.ApartIsNeeded | src/bin/node.rs:366-376 | whenever a pending raw transaction shares an unspent coin with a live one, some continuation selects that coin again |
| Sends.UnreservedSuffices | src/ipc/wallet.rs:159-164 | under the wallet lock the first check needs only the reserved set |
| Sends.DoubleSelectionRun | src/bin/node.rs:364-377 | from start-up, for every wallet and every spendable coin, a run in which the coin ends up in two live transactions although the raw transaction found it unreserved |
| Sends.Office.SendToAddress | src/ipc/wallet.rs:118-165 | succeeds exactly with accepted fee rates and recipient, signing keys, a spendable coin, a transaction that can be built and room in the channel, and then is the push step followed by the reserve step; otherwise nothing changes |
| Sends.Office.BroadcastRawTx | src/ipc/wallet.rs:101-115 | is the raw push step if the bytes decode and the channel has room, otherwise nothing |
| Sends.Office.FinishBroadcast | src/bin/node.rs:365-377 | is the success or the failure step, the latter releasing exactly the inputs of the transaction |
| Sends.RawHarmlessExactly | src/bin/node.rs:366-376 | a failure keeps all live transactions reserved if and only if it releases none of their coins |
| AddressBook.Table.Add | crates/address-book/src/lib.rs:344-347 | stores at the derived cell or returns the record already there |
| AddressBook.Table.Remove | crates/address-book/src/lib.rs:350-353 | empties the derived cell |
| AddressBook.Table.SuccessfulConnection | crates/address-book/src/lib.rs:462-479 | updates times, failures and services of whatever occupies the cell |
| AddressBook.Table.FailedConnection | crates/address-book/src/lib.rs:481-491 | updates the attempt time and the saturating failure count of whatever occupies the cell |
| AddressBook.Table.Count | crates/address-book/src/lib.rs:356-361 | the number of buckets holding the record in its slot |
| AddressBook.Table.RandomFromBucket | crates/address-book/src/lib.rs:307-331 | for every start the circular scan ends, finds a record exactly if the bucket has one, and one attempted in the last minute only if all were |
| AddressBook.Table.Select | crates/address-book/src/lib.rs:374-394 | for every start a record is found exactly if the table is non-empty, with the same preference inside its bucket |
| AddressBook.AlwaysPlaced | crates/address-book/src/lib.rs:434-491 | after any operations every record sits in the cell derived from it |
| AddressBook.PerformExactly | crates/address-book/src/lib.rs:434-491 | an operation changes at most the cell of its record: adding fills a free cell and leaves an occupied one, a report sets exactly the reported times, failures and services of the occupant |
| AddressBook.KeptUntilRemoved | crates/address-book/src/lib.rs:434-449 | whatever else happens, a stored peer keeps its cell, address, port and source until a removal of that cell |
| AddressBook.RestsForAMinute | crates/address-book/src/lib.rs:317-324 | a record is passed over for exactly 60 seconds after an attempt |
| AddressBook.CompeteExactly | crates/address-book/src/lib.rs:268-282 | with W*W <= B two peers share a cell if and only if their sources are in the same group and their addresses agree in bucket and slot number |
| AddressBook.SourceLimit | crates/address-book/src/lib.rs:277-282 | after any operations one source occupies at most W buckets and W*S slots |
| AddressBook.CountAtMostOne | crates/address-book/src/lib.rs:356-361 | a record is counted once if its own cell holds it and otherwise not at all |
| AddressFile.SizeMatches | crates/address-book/src/lib.rs:35-59 | the size prefix is the length of the encoding and fits a byte |
| AddressFile.Serialize | crates/address-book/src/lib.rs:201-226 | the buffer filled step by step is `Serialized` |
| AddressFile.NetworkNumbers | crates/address-book/src/lib.rs:205-206 | an address is written with its BIP 155 network number, length and bytes |
| AddressFile.DeserializeExactly | crates/address-book/src/lib.rs:99-170 | bytes are a record if and only if the size fits, the address is allowed and the flags are 0 or 1; the fields are read off their places and reading goes on behind the size |
| AddressFile.RecordRoundTrip | crates/address-book/src/lib.rs:99-170 | reading a written record gives it back with times in whole seconds exactly if its address is well formed, and leaves the following bytes |
| AddressFile.WriteTable | crates/address-book/src/io.rs:26-48 | writes magic, count and every serializable record once |
| AddressFile.ReadTable | crates/address-book/src/io.rs:50-70 | builds the table that `ReadFile` describes, or returns its error, on every input |
| AddressFile.FileStart | crates/address-book/src/io.rs:50-64 | a file without the magic is invalid, one that ends within its header is cut short |
| AddressFile.FileRebuildsTable | crates/address-book/src/io.rs:26-70 | for every reachable table reading what was written restores every known address to its cell, times in whole seconds, exactly if all addresses are well formed |
| AddressFile.KnownPeersSurvive | crates/address-book/src/io.rs:26-70 | from a table of well-formed addresses every record of a known network comes back in its cell with all its fields, times cut to the second, and nothing else does |
| AddressFile.MappedAddressUnreadable | crates/address-book/src/io.rs:65-68 | a table holding one IPv4-mapped IPv6 address is written and then rejected when read |
| Base32.DigitFromAccumulator | src/net/socks5.rs:177-184 | the digit read from the wrapped accumulator is the digit at its place in the whole number |
| Base32.Base32Encode35 | src/net/socks5.rs:172-187 | 56 characters in bounds, the i-th naming the i-th base-32 digit of the 280-bit input |
| Base32.AlphabetIs | src/net/socks5.rs:21 | the digits are a to z and 2 to 7 |
| Base32.EncodingInvertible | src/net/socks5.rs:172-187 | the characters determine the input bytes |

## Left out

- TCP, Socks5, DNS, files on disk, timeouts and stall detection: only the steps they lead to are modelled; any thread may disconnect at any time.
- libbitcoinkernel: header acceptance, block validation and the active chain are arbitrary inputs.
- BIP 352 shared secrets, key import, signing and the onion checksum: opaque or absent; a receiver may report any keys with any scalars.
- Coin selection, fees, dust limits and change: building may select any subset of the spendable coins or fail for its own reasons.
- Version negotiation, the ping-pong timer and the per-message rate counters of the p2p crate: no shared state of the node depends on them.
- The keys file, the command line tool, the wizard and the Cap'n Proto server: they read keys or forward calls to operations that are modelled.
- `is_terrible`, the feeler thread and the address gossip thread: they call the table operations whose runs are covered.
- Messages.ProcessMessage: builds its locators without overflow checks; a checked build panics above the height given for `Locators.BuildBlockLocators`.
- AddressBook.Table.Select: reads the clock once per call, as the one bucket that yields a record does.
- Handover.PrefixInChainRun: a rebuild or announcement that brings in blocks outside the chain or already arrived ends the chain run; `Refetches` treats those steps.
