# Verified model of the issuer node

The issuer node publishes identity states to a blockchain, keeps the keys of identities, and turns
configuration and schema files into tables. This project models the parts of it in which something
can go wrong between the lines, and proves what they keep. Paths below are relative to the root of
the repository.

Run `dafny verify dfyconfig.toml` to check the project.

| file | models |
|---|---|
| `Publication.dfy` | the state publication protocol as a transition system: table, pending map, goroutines, periodic check, chain |
| `PublicationSafety.dfy` | its invariant and what follows over every run |
| `PublicationRuns.dfy` | for each assumption of the protocol a run that breaks only that one |
| `Publisher.dfy` | the publisher: its calls, watcher, status checks and cleaner, each proved to be a run of the protocol |
| `PendingMap.dfy` | the pending map with its time to live and its cleaner |
| `Transaction.dfy`, `EthClient.dfy`, `BigInts.dfy` | confirmation tests, gas price, fee cap, polling loops |
| `KeyFanIn.dfy` | the concurrent listing of keys |
| `AwsSignature.dfy`, `Slices.dfy`, `BigEndian.dfy` | the signature decoder on byte slices that share arrays |
| `KeyPaths.dfy`, `FileStorage.dfy`, `KeyRing.dfy`, `LocalProviders.dfy`, `VaultKeys.dfy` | key paths, the file-backed list, the local providers, moving a secret in the vault |
| `JsonSchema.dfy` | flattening the attributes of a schema |
| `PaymentOptions.dfy`, `PaymentSettings.dfy` | payment options between API and domain, payment settings |
| `Resolver.dfy` | the tables of the network resolver and DID prefixes |
| `Orders.dfy` | what a loop over a map or over receives collects, in any order |
| `Text.dfy`, `Receipts.dfy`, `Wrappers.dfy` | string functions of Go's library, receipts, `Option` and `Result` |

## The publication protocol

A system is the table of identity states, the set of identities with a pending entry, the
goroutines that are inside a call or watching a transaction, and a chain. An action is one atomic
step of one actor, and the outcome of every service call is part of the action, so the theorems
about all runs cover every outcome of every call and every interleaving.

They rest on these assumptions, which `Disciplined` and `Enabled` state:

- The publisher runs in one process; the periodic check may run in another and never takes the lock.
- `Load` and `Store` on the pending map (publisher.go:90-95) are one step. The code makes two calls;
  `TestAndSetIsNeeded` is a run in which they are apart and a watcher ends up with a stale transaction.
- An entry does not expire while its owner works. The code gives it 60 s (publisher.go:45), and
  `NoExpiryIsNeeded` is a run in which it expires. `WithinTtlItIsASet` says exactly when the map
  answers like the set of owners; `CleanerBreaksTheLock` says which ticks of the cleaner break it.
  The publisher itself works on the map: a call that enters over an expired entry, and a tick of
  the cleaner, are runs with `Expire` actions, which the safety results exclude.
- One status check starts from a fresh read and is one step. The code reads all transacted states
  first; `FreshReadIsNeeded` is a run in which a check writes what it read before a retry.
- The chain only grows: a receipt, once seen, and the time of a block do not change.
- A state that `UpdateState` creates has a hash that the table does not have yet.
- `GetFailedState` returns a failed state of the identity that is not genesis, and the states that
  the periodic check works on are transacted, not genesis, and have a transaction id.

## What the code does that its documentation or a reader may not expect

- `CleaningBackground` (sync_map.go:51-63) is documented as cleaning expired entries. It deletes the
  entries that are still valid and keeps the expired ones (`CleanerDropsLiveEntries`), which lets
  a second publication in (`CleanerBreaksTheLock`).
- `updateIdentityStateTxStatus` (publisher.go:442-478) sends notifications for a successful
  transaction even if saving the state failed, and returns an error for a row it has saved if the
  claims cannot be fetched.
- The comment at publisher.go:304 says that the block values of a state that is about to be saved
  as transacted are still default. After a failed transaction and a retry they are those of the
  failed transaction (`StaleBlockValues`).
- `CheckConfirmation` (transaction.go:47-49) compares the low 64 bits of the depth (`CheckerTestTruncates`).
- The resend of `CallAuth` (client.go:158-169) is not clamped to the configured maximum
  (`ResendMayExceedMax`); `ResendRespectsMax` says when it stays below.
- The fee arithmetic of `CreateRawTx` goes through a float, which loses digits of large base fees
  (`RaisedInUnits`). The cap still covers one further block after every header that EIP-1559 allows,
  except for a computed base fee of 0 or 1 and from 7378697629483820544 on, where the raised fee
  leaves int64 (`FeeCapCovers`). It does not cover a second one: from a base fee of 143 on, two full
  blocks in a row ask for more (`TwoFullBlocksUndercut`).
- `KeysByIdentity` may return any part of the lists and no error if its caller cancels
  (`CancelledCallerMayLoseKeys`).
- The local providers delete the temporary key before they save it, so a failed save loses it
  (`FailedLinkLosesKey`).
- Linking a BJJ key returns the bare DID (local_bjj_key_provider.go:124), which no lookup accepts
  (`ReturnedDidFindsNothing`); a BJJ key that is not linked is not found by a lookup either, since
  lookups only read the file.
- A key is listed for a DID only if the DID has no slash (`NothingListedUnderSlash`).
- A move in the vault between two equal paths would destroy the secret (`MoveNeverLoses`); linking
  never does that (`LinkKeepsKey`).
- In the payment settings, the error about a duplicate option id prints the chain id
  (settings.go:93), the one about a bad token address prints the payment rails, which are valid
  (settings.go:96); the contract of `PaymentSettings.Decode` says what each error carries.
- `IsCredentialStatusTypeSupported` accepts every status type it does not know
  (`UnknownTypesAreAccepted`).
- A chain or network name with a colon can be configured, but no DID leads to it (`ReachableWhen`).

## Model

| member | source | states |
|---|---|---|
| Publication.Join | issuer-node/internal/gateways/publisher.go:88-118 | a run continued by a run is a run, which ties the methods to the protocol |
| PublicationSafety.StepKeepsInv | issuer-node/internal/gateways/publisher.go:88-601 | every step of every actor keeps the invariant and changes rows only along created to transacted or failed, failed to transacted, transacted to confirmed or failed |
| PublicationSafety.RunKeepsInv | issuer-node/internal/gateways/publisher.go:88-601 | the invariant holds after every run |
| PublicationSafety.EveryTransitionIsLegal | issuer-node/internal/gateways/publisher.go:88-186 | in every run, the i-th step changes persisted rows along legal edges only and new rows start as created |
| PublicationSafety.RowsPersist | issuer-node/internal/gateways/publisher.go:304-323 | rows are never removed and keep their identity; a confirmed row never changes |
| PublicationSafety.ConfirmedIsNeverLeft | issuer-node/internal/gateways/publisher.go:441-475 | a row confirmed after i steps is the same after any later number of steps |
| PublicationSafety.LockOwnership | issuer-node/internal/gateways/publisher.go:88-118 | in every reachable state an identity has at most one owner (a call in progress or a live watcher), and a pending entry exactly when it has one |
| PublicationSafety.OwnStepsRunOut | issuer-node/internal/gateways/publisher.go:315-320 | every step of an owner brings it nearer to its release, nobody else moves it, and it disappears only by releasing |
| PublicationSafety.OwnerCanAlwaysRelease | issuer-node/internal/gateways/publisher.go:95-118 | no entry is leaked: from every reachable state the owner can get to its release by its own steps, which give back this entry and change nothing else |
| PublicationSafety.WatchersMatchTheStore | issuer-node/internal/gateways/publisher.go:306-320 | in every reachable state each live watcher watches the transaction stored for its state |
| PublicationSafety.ConfirmedIsDeep | issuer-node/internal/gateways/publisher.go:403-419 | a confirmed row has a successful receipt, and the head is at least the configured count above its block |
| PublicationSafety.StaleBlockValues | issuer-node/internal/gateways/publisher.go:304-309 | saving as transacted keeps the block values: default exactly if no transaction of the state was settled before, else those of the failed one |
| PublicationSafety.SettledRowIsDetermined | issuer-node/internal/gateways/publisher.go:429-481 | however its transaction is settled, a row is a function of the transacted row, the receipt and the header |
| PublicationSafety.Confluence | issuer-node/internal/gateways/publisher.go:549-601 | any two interleavings of watcher and status checks over one history leave the same row |
| PublicationRuns.TestAndSetIsNeeded | issuer-node/internal/gateways/publisher.go:90-95 | a run that only splits Load and Store and leaves a stale watcher |
| PublicationRuns.NoExpiryIsNeeded | issuer-node/internal/gateways/publisher.go:45-46 | a run that only lets an entry expire and leaves a stale watcher |
| PublicationRuns.CleanerBreaksTheLock | issuer-node/internal/syncttlmap/sync_map.go:52-63 | a tick drops the entry of a working owner exactly if the entry has not expired, and then a run with no other fault leaves a stale watcher |
| PublicationRuns.FreshReadIsNeeded | issuer-node/internal/gateways/publisher.go:493-547 | a run, from before the transaction is mined, that only splits a status check and overwrites a retry |
| Publisher.GroupByUserId | issuer-node/internal/gateways/publisher.go:484-490 | the users are those of the claims, each with the ids of its claims in order |
| Publisher.GroupingCounts | issuer-node/internal/gateways/publisher.go:483-490 | grouping loses, invents and misfiles no claim |
| Publisher.IdsInOrder | issuer-node/internal/gateways/publisher.go:484-490 | the ids of a user are in the order of the claims, none left out |
| Publisher.Publisher.PublishState | issuer-node/internal/gateways/publisher.go:88-102 | refused without effect while an entry can be loaded; otherwise exactly the protocol run for the given outcomes; it works exactly if a state is there to publish, the proof is sent and saved, and then keeps the new entry; an error gives the entry back and leaves a created state marked as failed, or created if even that save failed |
| Publisher.Publisher.PublishNewState | issuer-node/internal/gateways/publisher.go:120-159 | the protocol run from the pending entry on; a state whose proof fails is saved as failed, with the table written out for every outcome |
| Publisher.Publisher.PublishOrMarkFailed | issuer-node/internal/gateways/publisher.go:139-150 | the proof and, if it fails, the save as failed |
| Publisher.MarkedFailedIsFound | issuer-node/internal/gateways/publisher.go:139-165 | a retry can find the state of a failed publication exactly if it was saved as failed |
| Publisher.Publisher.RetryPublishState | issuer-node/internal/gateways/publisher.go:104-118 | as PublishState for a failed state; an error leaves all but an expired entry as it was |
| Publisher.Publisher.RetryFailedState | issuer-node/internal/gateways/publisher.go:161-186 | the protocol run of a retry; an error changes no row |
| Publisher.Publisher.PublishProof | issuer-node/internal/gateways/publisher.go:189-323 | send, save as transacted, spawn a watcher of that transaction; any failure before the save leaves the row alone |
| Publisher.Publisher.UpdateIdentityStateTxStatus | issuer-node/internal/gateways/publisher.go:429-481 | the row that is written, when an error is reported, and which notifications go out, in any order of users |
| Publisher.SavedIs | issuer-node/internal/gateways/publisher.go:429-481 | which columns of which row are written for a receipt, and when nothing is; when success is reported |
| Publisher.NotificationsAre | issuer-node/internal/gateways/publisher.go:456-466 | each user gets the ids of its own claims, from the issuer |
| Publisher.Publisher.UpdateTransactionStatus | issuer-node/internal/gateways/publisher.go:396-427 | the watcher is a protocol run; a failed transaction is saved at once, a successful one only when deep |
| Publisher.AfterWatchIs | issuer-node/internal/gateways/publisher.go:396-427 | a failed receipt is saved on the chain it was seen on, a successful one on the deep chain, without depth nothing |
| Publisher.Publisher.Watch | issuer-node/internal/gateways/publisher.go:315-320 | the watcher gives the pending entry back whatever happened |
| Publisher.Publisher.CleanPending | issuer-node/internal/gateways/publisher.go:69-71 | a tick of the cleaner is a run of expiries of the entries that are still valid, so it follows the protocol exactly if there are none |
| Publisher.PublishRunIsDisciplined | issuer-node/internal/gateways/publisher.go:88-102 | a call follows the protocol exactly if it does not enter over an expired entry |
| Publisher.RetryRunIsDisciplined | issuer-node/internal/gateways/publisher.go:104-118 | the same for a retry |
| Publisher.Publisher.CheckState | issuer-node/internal/gateways/publisher.go:549-601 | one status check: the row settles exactly when receipt, depth, header and save are there |
| Publisher.Publisher.CheckTransactionStatus | issuer-node/internal/gateways/publisher.go:493-547 | one round: a state without a timeout or within it is left alone, one past it is settled if it can be; a run of one status check for each settled state; no other row and no pending entry changes |
| Publisher.DueStaysDue | issuer-node/internal/gateways/publisher.go:515-534 | a state is due from the instant after its timeout on, never without one |
| Publisher.RowAfterCheckIs | issuer-node/internal/gateways/publisher.go:549-601 | exactly when a status check settles a transacted row, and what the row then says |
| Publisher.PublicationKeepsInv | issuer-node/internal/gateways/publisher.go:88-102 | a publication from its call to the end of its watcher keeps the invariant |
| Publisher.RetryKeepsInv | issuer-node/internal/gateways/publisher.go:104-118 | so does a retry |
| Publisher.CheckRoundKeepsInv | issuer-node/internal/gateways/publisher.go:493-547 | so does a round of status checks, which touches nothing but the settled rows |
| PendingMap.TTLMap.Load | issuer-node/internal/syncttlmap/sync_map.go:33-49 | finds an entry exactly if some store of the key is in force: none since stored or deleted the key, no tick of the cleaner came before its expiry, and its time has not passed |
| PendingMap.TTLMap.Clean | issuer-node/internal/syncttlmap/sync_map.go:52-63 | one tick, over the entries in any order: keeps the expired ones and reports the others as dropped, each once |
| PendingMap.CleanerDropsLiveEntries | issuer-node/internal/syncttlmap/sync_map.go:51-63 | a tick loses exactly the loadable entries that expire after it; what it keeps can only be loaded at that very instant |
| PendingMap.WithinTtlItIsASet | issuer-node/internal/syncttlmap/sync_map.go:20-63 | for any history of stores, deletes and ticks: Load answers like the set of keys stored and not deleted, for every key, exactly if no current entry has expired or was hit by a tick within its life |
| PendingMap.MapWithinSet | issuer-node/internal/syncttlmap/sync_map.go:20-63 | the map never has more keys than that set, and has the same without the cleaner |
| PendingMap.MapMeans | issuer-node/internal/syncttlmap/sync_map.go:20-63 | a current store is still in the map exactly if the cleaner spared it, and then with its own expiry |
| PendingMap.SetMeans | issuer-node/internal/syncttlmap/sync_map.go:20-30 | a key is in the set exactly if one, and only one, of its stores is current |
| Transaction.CheckConfirmation | issuer-node/internal/gateways/transaction.go:35-54 | in-place subtraction on the block just read; the receipt keeps its block |
| Transaction.WaitForConfirmation | issuer-node/internal/gateways/transaction.go:101-121 | ends well exactly if the last block read is in time and above receipt block plus count, after a bounded number of reads |
| Transaction.WatcherImpliesChecker | issuer-node/internal/gateways/transaction.go:47-51 | a depth the watcher accepts passes the status check's test at that head and every later one |
| Transaction.CheckerTestTruncates | issuer-node/internal/gateways/transaction.go:47-49 | the test is the untruncated comparison for every 64-bit count exactly when the depth fits 64 bits or is above them with the greatest low bits |
| EthClient.Client.GetGasPrice | issuer-node/internal/eth/client.go:473-515 | suggestion plus a tenth, clamped; forced without asking if the bounds are equal; the result is fresh and the bounds are not written |
| EthClient.Client.CallAuth | issuer-node/internal/eth/client.go:129-174 | one send at the price, a second one exactly if the first is underpriced, at thirty times the price, which is within a positive maximum exactly if there is room; the bounds are not written |
| EthClient.ForcedIsGeneral | issuer-node/internal/eth/client.go:477-481 | the shortcut gives what the general path gives for any suggestion |
| EthClient.GasPriceIsMonotone | issuer-node/internal/eth/client.go:490-506 | a higher suggestion never gives a lower price |
| EthClient.GasPriceIsClosest | issuer-node/internal/eth/client.go:490-506 | with one bound, two consistent ones or none the admissible price nearest to 11/10 of the suggestion; of inconsistent bounds the maximum wins |
| EthClient.OnlyPositiveBoundsBind | issuer-node/internal/eth/client.go:478-506 | a bound of zero or less is as good as none |
| EthClient.ResendRespectsMax | issuer-node/internal/eth/client.go:158-169 | thirty times the price respects the maximum exactly if the raised suggestion and a positive minimum are at most a thirtieth of it |
| EthClient.ResendMayExceedMax | issuer-node/internal/eth/client.go:158-169 | a suggestion of 50 under a maximum of 100 is sent at 55 and resent above 100 |
| EthClient.RawTxFees | issuer-node/internal/eth/client.go:404-458 | tip and cap for every combination of given and computed values, the error cases, and the range of the cap after a block at or under its gas target |
| EthClient.FeeMoves | issuer-node/internal/eth/client.go:429-429 | the base fee moves by an eighth for each target of gas above or below the target, in proportion and rounded down, up by one at least |
| EthClient.BelowTarget | issuer-node/internal/eth/client.go:429-429 | at or under the target the base fee falls by an eighth at most: by that for an empty block, not at all at the target |
| EthClient.BaseFeeIsMonotone | issuer-node/internal/eth/client.go:429-429 | a fuller block never lowers it |
| EthClient.NearestIsNear | issuer-node/internal/eth/client.go:433-433 | rounding to a float64 is exact below 2^53 and moves a number by at most its 2^53rd part |
| EthClient.NearestIsBest | issuer-node/internal/eth/client.go:433-433 | no other multiple of the float spacing is nearer, and a tie goes to the even one |
| EthClient.RaisedIsExact | issuer-node/internal/eth/client.go:433-435 | below 2^53 / 5 the raised base fee is floor((5b + 2) / 4) |
| EthClient.RaiseCoversBaseFee | issuer-node/internal/eth/client.go:433-435 | for all base fees: the raised one is at least the base fee on every platform exactly below an explicit limit |
| EthClient.NextBaseFee | issuer-node/internal/eth/client.go:429-429 | after a header that EIP-1559 allows (gas limit of at least 5000) the base fee rises by at most an eighth of 2501/2500 of it, or by one |
| EthClient.FeeCapCovers | issuer-node/internal/eth/client.go:429-456 | for every base fee, on every platform: the cap covers tip and base fee of the next block for every header that EIP-1559 allows exactly if the base fee is at least two and below an explicit limit |
| EthClient.TwoFullBlocksUndercut | issuer-node/internal/eth/client.go:431-434 | from 143 up to the limit, but not at 142, two full blocks in a row ask for more than the cap |
| EthClient.RaisedInUnits | issuer-node/internal/eth/client.go:433-434 | for every base fee the value of the float arithmetic, as residues of the significand modulo 4, 8 or 16 |
| EthClient.RoundsAreBounded | issuer-node/internal/eth/client.go:194-205 | a round that ends in time is one of the first timeout / cycle, rounded up |
| EthClient.ElapsedIs | issuer-node/internal/eth/client.go:194-205 | a cycle for every round but the first, and what the calls take on top |
| EthClient.BoundIsReached | issuer-node/internal/eth/client.go:194-206 | calls that take no time and find nothing make exactly ceil(timeout / cycle) + 1 rounds |
| EthClient.WaitReceipt | issuer-node/internal/eth/client.go:188-215 | terminates within ceil(timeout / cycle) + 1 calls, stops at the first receipt, no error only with a receipt |
| EthClient.WaitBlock | issuer-node/internal/eth/client.go:217-247 | terminates within the same bound, without error exactly if the last block read is above the target before the timeout |
| KeyFanIn.StepKeepsInv | issuer-node/internal/kms/kms.go:188-228 | every step of workers, closer, collector and caller keeps the invariant |
| KeyFanIn.RunKeepsInv | issuer-node/internal/kms/kms.go:188-228 | so does every run |
| KeyFanIn.NoSendOnClosedChannel | issuer-node/internal/kms/kms.go:205-215 | when the channel is closed every worker has finished, for any number of providers |
| KeyFanIn.StepsRunOut | issuer-node/internal/kms/kms.go:199-226 | every step uses up work, so every run ends |
| KeyFanIn.SomeoneCanMove | issuer-node/internal/kms/kms.go:189-215 | no deadlock: until all goroutines are gone and the call has returned, some step can be taken |
| Orders.OrderDoesNotMatter | issuer-node/internal/kms/kms.go:219-226 | what is collected in another order is the same, each as often |
| KeyFanIn.ResultIsComplete | issuer-node/internal/kms/kms.go:217-227 | without cancellation, no error exactly if no provider failed, and then the result is a permutation of all lists |
| KeyFanIn.RunResult | issuer-node/internal/kms/kms.go:188-228 | the same from the start over every run |
| KeyFanIn.CancelledCallerMayLoseKeys | issuer-node/internal/kms/kms.go:205-208 | for any lists of any number of providers and any choice of those kept: a run in which all answer, the caller cancels, and just what is kept is returned without an error |
| KeyFanIn.LossShows | issuer-node/internal/kms/kms.go:217-227 | fewer keys than all exactly if some list that is not empty was not kept |
| KeyFanIn.KeysByIdentity | issuer-node/internal/kms/kms.go:188-228 | under any scheduler and any cancellation the call returns, leaves no goroutine behind, and has whole lists of different providers; complete exactly without an error if not cancelled; an error is that of a failing provider |
| Slices.Append | issuer-node/internal/kms/aws_providers_helpers.go:96-97 | in place within the capacity, over whatever shares the array; otherwise in a new array of any spare capacity |
| Slices.TrimLeft | issuer-node/internal/kms/aws_providers_helpers.go:121-121 | a window into the same array without the leading zeros |
| AwsSignature.AdjustSignatureLength | issuer-node/internal/kms/aws_providers_helpers.go:120-127 | trims and pads, in the same array or a new one |
| AwsSignature.GetEthereumSignature | issuer-node/internal/kms/aws_providers_helpers.go:95-118 | for every layout of r and s in shared arrays, the signature made of the bytes r and s had on entry |
| AwsSignature.VerifySignature | issuer-node/internal/kms/aws_providers_helpers.go:85-92 | verifies the first 64 bytes and leaves the signature's array unchanged |
| AwsSignature.DecodeAWSETHSig | issuer-node/internal/kms/aws_providers_helpers.go:57-83 | for every layout, the pure decoding of r and s |
| AwsSignature.DecodedIsCanonical | issuer-node/internal/kms/aws_providers_helpers.go:68-82 | 65 bytes: r, the low s, and the first recovery bit that gives the expected key |
| AwsSignature.DecodesWhen | issuer-node/internal/kms/aws_providers_helpers.go:57-118 | which inputs decode, exactly |
| AwsSignature.DecodingIsIdempotent | issuer-node/internal/kms/aws_providers_helpers.go:57-83 | decoding a decoded signature gives it back |
| AwsSignature.MalleableFormsAgree | issuer-node/internal/kms/aws_providers_helpers.go:68-71 | (r, s) and (r, N - s), with any leading zeros, decode to the same bytes or both fail |
| AwsSignature.NormaliseIsLowS | issuer-node/internal/kms/aws_providers_helpers.go:68-71 | s becomes the smaller of s and N - s |
| AwsSignature.EthereumSignatureHas65 | issuer-node/internal/kms/aws_providers_helpers.go:95-118 | a reconstructed signature is 65 bytes and recovers the expected key |
| BigEndian.AdjustKeepsValue | issuer-node/internal/kms/aws_providers_helpers.go:120-127 | trimming and padding keeps the number and gives 32 bytes exactly when it fits |
| KeyPaths.AnonSubmatchIs | issuer-node/internal/kms/local_bjj_key_provider.go:29-29 | the matcher agrees with the form the expression describes |
| KeyPaths.IdenSubmatchIs | issuer-node/internal/kms/local_bjj_key_provider.go:28-28 | the same for paths bound to an identity |
| KeyPaths.LocalPathRecovers | issuer-node/internal/kms/local_bjj_key_provider.go:62-77 | PublicKey reads back the key that was printed, with or without an identity, exactly when the identity has no line break |
| KeyPaths.VaultPathRecovers | issuer-node/internal/kms/vault_bjj_key_provider.go:120-135 | the same for the vault's paths |
| KeyPaths.BoundPathRecovers | issuer-node/internal/kms/utils.go:55-61 | any one-line prefix is skipped, any other makes the path unreadable |
| KeyPaths.ConversionsInvert | issuer-node/internal/kms/utils.go:27-53 | a stored key type reads back exactly for the known ones |
| KeyPaths.PublicKeyWhen | issuer-node/internal/kms/local_bjj_key_provider.go:62-77 | an id names a public key exactly if its type is right and it has one of the two forms |
| KeyPaths.CaseIsIgnored | issuer-node/internal/kms/local_bjj_key_provider.go:28-29 | the key type in a path may be in any case, another one is refused |
| Text.HexDecodesWhen | issuer-node/internal/kms/local_bjj_key_provider.go:75-76 | pairs of hexadecimal digits decode, high one first, and nothing else does |
| FileStorage.FileStorageManager.SaveKeyMaterial | issuer-node/internal/kms/file_storage_manager.go:37-59 | appends one entry, or leaves the list alone on an error |
| FileStorage.FileStorageManager.SearchByIdentity | issuer-node/internal/kms/file_storage_manager.go:61-83 | the listing of the identity and type, or the error of an unreadable file |
| FileStorage.FileStorageManager.SearchPrivateKey | issuer-node/internal/kms/file_storage_manager.go:85-96 | the private key of the first entry with the path |
| FileStorage.FileStorageManager.GetKeyMaterial | issuer-node/internal/kms/file_storage_manager.go:139-153 | type and key of the first entry with the path |
| FileStorage.FileStorageManager.DeleteKeyMaterial | issuer-node/internal/kms/file_storage_manager.go:114-137 | removes the first entry with the path |
| FileStorage.FindIsMembership | issuer-node/internal/kms/file_storage_manager.go:85-96 | an entry is found exactly when one has the path |
| FileStorage.ListingIs | issuer-node/internal/kms/file_storage_manager.go:61-83 | exactly the paths filed under the identity with the right type are listed |
| FileStorage.FiledUnderIs | issuer-node/internal/kms/file_storage_manager.go:69-73 | an entry is filed under an identity exactly if the identity has no slash and the path is DID/x, x/DID, DID/x/y or x/DID/y with slash-free x and y |
| FileStorage.ListedPaths | issuer-node/internal/kms/file_storage_manager.go:61-83 | which paths are listed, in these forms |
| FileStorage.OthersAreNotListed | issuer-node/internal/kms/file_storage_manager.go:73-74 | a key linked to one DID is not listed for another, unless its id starts with that; no key is listed under another type |
| FileStorage.ListingInOrder | issuer-node/internal/kms/file_storage_manager.go:68-81 | one id for each listed entry, in the order of the list |
| FileStorage.PlacesAre | issuer-node/internal/kms/file_storage_manager.go:68-81 | the places of the listed entries are those filed under the identity with the type |
| FileStorage.WithoutKeepsOthers | issuer-node/internal/kms/file_storage_manager.go:114-137 | one entry goes, all others stay in order and no other path is hidden |
| KeyRing.KeysAreConserved | issuer-node/internal/kms/local_bjj_key_provider.go:40-59 | over every run of New, LinkToIdentity and Delete with successful saves, each private key generated and not deleted is in exactly one place |
| KeyRing.ConservedFromTheStart | issuer-node/internal/kms/local_bjj_key_provider.go:26-36 | the same from a provider just opened on any list |
| KeyRing.DeleteKeepsInv | issuer-node/internal/kms/file_storage_manager.go:114-137 | deleting an entry moves up the later ones and loses no other private key |
| KeyRing.LinkKeepsInv | issuer-node/internal/kms/local_ed25519_key_provider.go:89-107 | linking keeps the invariant behind that |
| KeyRing.LinkedKeyIsStored | issuer-node/internal/kms/utils.go:14-23 | after linking, the original material is stored under DID, slash, id |
| KeyRing.LinkedKeyStays | issuer-node/internal/kms/file_storage_manager.go:37-137 | and stays there over every later run that does not delete that path |
| KeyRing.LinkedKeyIsFound | issuer-node/internal/kms/local_eth_key_provider.go:146-182 | ETH and Ed25519 find it under the returned id |
| KeyRing.LinkedKeyStaysFound | issuer-node/internal/kms/local_eth_key_provider.go:146-182 | and go on finding it over every later run that does not delete that path |
| KeyRing.MadeAndLinkedKeyIsFound | issuer-node/internal/kms/local_ed25519_key_provider.go:36-159 | a key just made and then linked is found under the id that linking returned |
| KeyRing.LinkedBJJKeyIsFound | issuer-node/internal/kms/local_bjj_key_provider.go:110-161 | an unlinked BJJ key is not found; a linked one is found under its path exactly when the DID has no line break |
| KeyRing.LinkedBJJKeyStaysFound | issuer-node/internal/kms/local_bjj_key_provider.go:132-161 | and is found there over every later run that does not delete that path |
| KeyRing.ReturnedDidFindsNothing | issuer-node/internal/kms/local_bjj_key_provider.go:124-140 | nothing is found under the bare DID that linking a BJJ key returns, whatever is kept, exactly if the DID does not end like a bound path, and never for a DID without a slash |
| KeyRing.LinkedKeyIsListed | issuer-node/internal/kms/local_eth_key_provider.go:127-129 | the linked key is listed for the DID exactly when the DID has no slash and the id at most one |
| KeyRing.EntryStays | issuer-node/internal/kms/file_storage_manager.go:37-137 | an entry stays in the list over every run that does not delete its path |
| KeyRing.LinkedKeyStaysListed | issuer-node/internal/kms/file_storage_manager.go:61-83 | the linked key is listed over every later run that does not delete its path, under the same condition |
| KeyRing.NothingListedUnderSlash | issuer-node/internal/kms/file_storage_manager.go:68-78 | nothing is ever listed for a DID with a slash |
| KeyRing.FailedLinkLosesKey | issuer-node/internal/kms/local_bjj_key_provider.go:119-123 | the private key is nowhere exactly when the save failed |
| KeyRing.NewIDIsInjective | issuer-node/internal/kms/utils.go:14-23 | different public parts get different ids, except for one that spells out the id of the other |
| KeyRing.NamedIsInjective | issuer-node/internal/kms/utils.go:17-21 | which public parts those are, exactly |
| KeyRing.BJJLookupWhen | issuer-node/internal/kms/local_bjj_key_provider.go:132-147 | which BJJ ids are looked up, and where |
| LocalProviders.LocalEthKeyProvider.New | issuer-node/internal/kms/local_eth_key_provider.go:35-58 | the key is temporary, with or without an identity |
| LocalProviders.LocalEthKeyProvider.LinkToIdentity | issuer-node/internal/kms/local_eth_key_provider.go:106-124 | temporary key to stored key, and every error case |
| LocalProviders.LocalEthKeyProvider.Delete | issuer-node/internal/kms/local_eth_key_provider.go:131-133 | only the file is touched |
| LocalProviders.LocalEthKeyProvider.PrivateKey | issuer-node/internal/kms/local_eth_key_provider.go:146-182 | the lookup: temporary keys first, then the list; 32 bytes or nothing |
| LocalProviders.DecodedIs | issuer-node/internal/kms/local_eth_key_provider.go:170-181 | just the hexadecimal strings of 32 bytes decode, to those bytes |
| LocalProviders.GeneratedEthKeyIsRead | issuer-node/internal/kms/local_eth_key_provider.go:35-182 | the bytes of a key made by New are read back before and after linking, if they are 32 |
| LocalProviders.LocalEd25519KeyProvider.New | issuer-node/internal/kms/local_ed25519_key_provider.go:36-53 | the key is temporary, with or without an identity |
| LocalProviders.LocalEd25519KeyProvider.LinkToIdentity | issuer-node/internal/kms/local_ed25519_key_provider.go:89-107 | temporary key to stored key, and every error case |
| LocalProviders.LocalEd25519KeyProvider.PrivateKey | issuer-node/internal/kms/local_ed25519_key_provider.go:129-159 | the lookup and the expansion of the seed, with the panic on another length than 32 |
| LocalProviders.GeneratedSeedsDoNotPanic | issuer-node/internal/kms/local_ed25519_key_provider.go:36-159 | seeds of 32 bytes made by New never panic, before or after linking, and expand to their own key |
| LocalProviders.LocalBJJKeyProvider.New | issuer-node/internal/kms/local_bjj_key_provider.go:40-59 | temporary without an identity, saved at once with one |
| LocalProviders.LocalBJJKeyProvider.LinkToIdentity | issuer-node/internal/kms/local_bjj_key_provider.go:110-126 | temporary key to stored key, returning the bare DID |
| LocalProviders.LocalBJJKeyProvider.PrivateKey | issuer-node/internal/kms/local_bjj_key_provider.go:132-161 | only paths of the two forms, only from the file |
| LocalProviders.LinkedBJJPairAgrees | issuer-node/internal/kms/local_bjj_key_provider.go:62-161 | after New and LinkToIdentity one path gives both the public and the private key, exactly when the DID has no line break |
| LocalProviders.LinkedBJJKeyIsRead | issuer-node/internal/kms/local_bjj_key_provider.go:110-161 | the bytes of a linked key are read back exactly if the DID has no line break and they are 32 |
| LocalProviders.BJJKeyOfIdentityIsRead | issuer-node/internal/kms/local_bjj_key_provider.go:40-59 | so are those of a key made for an identity, at once |
| VaultKeys.Vault.MoveSecretData | issuer-node/internal/kms/vault_providers_helpers.go:103-123 | the vault after each of the three requests, whichever fails |
| VaultKeys.Vault.New | issuer-node/internal/kms/vault_bjj_key_provider.go:35-46 | the new id, returned even if the save fails, and the vault with the secret at its path |
| VaultKeys.Vault.PrivateKey | issuer-node/internal/kms/vault_bjj_key_provider.go:145-196 | the lookup: path forms, then the secret, its type and its 32 bytes |
| VaultKeys.StoredKeyWhen | issuer-node/internal/kms/vault_bjj_key_provider.go:145-196 | which ids have a private key, exactly |
| VaultKeys.NewKeyIsReadBack | issuer-node/internal/kms/vault_bjj_key_provider.go:35-46 | both parts of a new key are read under the id of New, exactly when the DID, if any, has no line break |
| VaultKeys.NewKeyIsLinked | issuer-node/internal/kms/vault_bjj_key_provider.go:35-64 | linking takes a new key from the path that New wrote, and both parts are read under the linked id, exactly when the DID has no line break |
| VaultKeys.LinkedKeyIsReadBack | issuer-node/internal/kms/vault_bjj_key_provider.go:48-64 | the private key of any linked id is read under the new id, exactly when the DID has no line break, and not under the old one |
| VaultKeys.Vault.LinkToIdentity | issuer-node/internal/kms/vault_bjj_key_provider.go:48-64 | unbound ids only; the new id is returned even if the move fails |
| VaultKeys.MoveNeverLoses | issuer-node/internal/kms/vault_providers_helpers.go:103-123 | after any number of requests the secret is at one of the two paths, exactly unless the move is complete and the paths are equal; no other secret changes |
| VaultKeys.MovedIs | issuer-node/internal/kms/vault_providers_helpers.go:103-123 | what is at either path when a move stops, for every failure |
| VaultKeys.AbsolutePathIs | issuer-node/internal/kms/vault_providers_helpers.go:76-78 | a leading slash is not part of the place of a secret |
| VaultKeys.LinkKeepsKey | issuer-node/internal/kms/vault_bjj_key_provider.go:48-64 | the two paths always differ, and the new id names the same public key, or none if the DID has a line break |
| JsonSchema.ProcessProperties | issuer-node/internal/jsonschema/schema.go:259-282 | for any order of the maps: exactly one entry per property at any depth, each followed by its subtree; fails exactly if some property cannot be decoded |
| JsonSchema.EntryIs | issuer-node/internal/jsonschema/schema.go:262-279 | the fields of an entry: those of the property, or just type object |
| JsonSchema.FlatteningIsUnique | issuer-node/internal/jsonschema/schema.go:259-282 | any two orders give the same entries, each as often |
| JsonSchema.AddProperty | issuer-node/internal/jsonschema/schema.go:261-279 | adding a property and its flattened subtree to a flattening gives a flattening |
| JsonSchema.FindIndexForSchemaAttribute | issuer-node/internal/jsonschema/schema.go:250-257 | the first index with the id, or -1 exactly when there is none |
| JsonSchema.AttributeByID | issuer-node/internal/jsonschema/schema.go:101-111 | succeeds exactly when the schema decodes and has a property with the id; independent of order if there is one; an error names the missing id or a property that cannot be decoded |
| PaymentOptions.ParseOfPrint | issuer-node/internal/api/payment.go:272-275 | printing and parsing any amount gives it back |
| PaymentOptions.ParsesWhen | issuer-node/internal/api/payment.go:272-275 | the amounts are the strings of digits with or without a sign, all others are rejected |
| PaymentOptions.PrintOfParse | issuer-node/internal/api/responses.go:330-330 | parsing and printing changes exactly the strings that are not canonical |
| PaymentOptions.NewPaymentOptionConfig | issuer-node/internal/api/payment.go:263-286 | all items, field by field, or the error of the first that is rejected |
| PaymentOptions.FirstErrorCounts | issuer-node/internal/api/payment.go:268-275 | a configuration is rejected exactly if some item is, with the error of the first, recipient before amount |
| PaymentOptions.ToPaymentOptionConfig | issuer-node/internal/api/responses.go:325-337 | item by item and field by field, with canonical amounts that read back |
| PaymentOptions.RoundTrip | issuer-node/internal/api/responses.go:325-337 | printing any configuration and reading it succeeds exactly if its recipients are valid, and gives it back |
| PaymentOptions.ReadThenPrint | issuer-node/internal/api/payment.go:263-286 | reading and printing only respells amounts, nothing at all exactly if all are canonical, and is idempotent |
| PaymentSettings.Decode | issuer-node/internal/payments/settings.go:77-119 | for any order of the chains, succeeds exactly if rails and tokens are valid and ids distinct; then every option is there once, field by field, under its own chain; an error carries what the code prints |
| PaymentSettings.DecodeOptions | issuer-node/internal/payments/settings.go:91-116 | the options of one chain, or a reason why the settings are not well formed |
| PaymentSettings.BlankTokens | issuer-node/internal/payments/settings.go:95-97 | a token that is no address is accepted exactly if it is blank |
| PaymentSettings.ConfigIsUnique | issuer-node/internal/payments/settings.go:85-118 | the settings determine the configuration |
| Resolver.NewResolver | issuer-node/internal/network/resolver.go:100-197 | for any order of chains and networks, succeeds exactly if all networks are acceptable; then the prefix-keyed tables have the same keys and each key the settings of one network |
| Resolver.EnterNetwork | issuer-node/internal/network/resolver.go:120-181 | the entries of one network, or failure exactly if one of its conditions fails, with the error of that one |
| Resolver.LookupsAgree | issuer-node/internal/network/resolver.go:200-241 | for any DID and any settings the lookups all succeed, with the settings of its own network, or all fail |
| Resolver.LookupsHoldSettings | issuer-node/internal/network/resolver.go:134-181 | what is looked up is what was configured, field by field |
| Resolver.LookupsByChainID | issuer-node/internal/network/resolver.go:209-216 | networks with chain ids of their own are looked up by them, others are not known |
| Resolver.TrimSlashIs | issuer-node/internal/network/resolver.go:160-160 | one slash at the end of the server url is taken off |
| Resolver.PrefixExistsWhen | issuer-node/internal/common/common.go:58-63 | a DID has a prefix exactly from three colons on |
| Resolver.PrefixIs | issuer-node/internal/common/common.go:64-66 | it is the third part and the fourth, whether or not there are more |
| Resolver.KeyIsInjective | issuer-node/internal/network/resolver.go:311-313 | colon-free names are told apart by their key |
| Resolver.ReachableWhen | issuer-node/internal/common/common.go:58-67 | a network can be reached from some DID exactly when its names have no colon |
| Resolver.SupportedCredentialStatusTypes | issuer-node/internal/network/resolver.go:298-309 | exactly the known types that IsCredentialStatusTypeSupported accepts, each once, written out for every mode |
| Resolver.AcceptedTypeIsUsable | issuer-node/internal/network/resolver.go:284-295 | a type accepted for a stored mode has the url or contract address it needs |
| Resolver.UnknownTypesAreAccepted | issuer-node/internal/network/resolver.go:284-295 | a status type is accepted in every mode exactly if it is not one of the two that need an address |

## Left out

- Publication.Apply: one step per service call; a call that fails after it has had its effect (a save whose answer is lost) is not a step of the model.
- Publisher.Publisher.PublishState: the methods are proved without interference from other goroutines; interleavings are covered by the lemmas of PublicationSafety over the same actions.
- Publisher.Publisher.UpdateIdentityStateTxStatus: whether a notification could be delivered is not modelled, since a failure is only logged.
- EthClient.RawTxFees: nonce, gas estimate and the other fields of the transaction; the base fee assumes a parent block after London with a gas limit of at least 2, without which the library divides by zero.
- EthClient.RaisedIsExact: for base fees below 2^53 / 5; RaisedInUnits has all others.
- EthClient.FeeCapCovers: for gas limits of at least 5000, the least that EIP-1559 allows.
- EthClient.RaiseCoversBaseFee: a float outside int64 becomes a number that the platform chooses, which the model takes as a parameter.
- EthClient.Client.CallAuth: the suggestion is not negative, as the node encodes it without a sign.
- AwsSignature.DecodeAWSETHSig: parsing of the DER envelope; r and s may be any windows of any arrays, but the public key and the data lie elsewhere.
- KeyRing.KeysAreConserved: generated keys are new, and saves and deletions of entries succeed; what a failed save does is FailedLinkLosesKey, and a write that truncates the file is not modelled.
- VaultKeys.Vault.MoveSecretData: a secret with an unexpected format counts as one that is not there.
- JsonSchema.AttributeByID: finding properties.credentialSubject.properties in the document; the model starts from there.
- PaymentSettings.Decode: decoding of the YAML file; the model starts from the decoded structure.
- Resolver.NewResolver: the chain, network and method registries, dialling and contract binding are parameters; the list of supported networks is not built.
- The circuit inputs and the proof of publishProof (publisher.go:189-293): they may fail, nothing more.
- The vault's listing of keys: deleted secrets stay visible in its metadata, which the map of secrets does not capture.
- The providers backed by the AWS secret store, and the provider registry with its one-call forwarders: no property across calls.
- Cryptography (hashes, curves, recovery, verification, proofs): uninterpreted, except that recovery accepts 65 bytes only.
- Chain reorganisations and several publisher processes: outside the assumptions above.
- HTTP handlers, configuration, logging, pub/sub transport, loaders, schema validation: thin plumbing.
