# Verification of the control plane's hard parts

A Dafny model of the parts of the mayastor control plane whose correctness is
hardest to see by reading, and proofs about all their runs and inputs:

- **The etcd client** (`utils/pstor`). Each service keeps a lease, queues for a
  lock, records itself as the owner and fences every write with its lease.
  `LeaseKeeper` is the keeper as an object, `LeaseProtocol` any number of
  keepers interleaved with etcd, lease expiry and delayed writes, `LeaseSafety`
  what all their runs guarantee, `LeaseProgress` that a keeper gets and keeps
  the lock, `OwnerRecord` who writes the owner record when, and `LeaseWitness`
  and `OwnerWitness` give the runs that show how far each guarantee reaches.
  `EtcdClient` is the client the services call, `CompareAndSwap` its
  revision-checked put among other writers, `PagedScan` (with `ByteOrder` and
  `Utf8`) its paged read, and `PagedChanges` that read over a changing store.
- **The multiplexed watcher**. `WatchRunner` holds its objects and handlers,
  proved against the functions of `WatchSpec`; `WatchRuns` is about all runs of
  those handlers over an etcd that may drop the stream, and `WatchLoop` ties the
  two together. `WatchDelivery` says who is called back and how often,
  `WatchRevisions` which revision the table keeps, `WatchHealth` when a stream
  is given up, `WatchStates` when the runner ends and `WatchLoss` exactly which
  changes a lost stream loses.
- **The weighted scorer** (`WeightedScore`), **the usage extrapolator**
  (`ResourceSamples`, `Extrapolation`), **the deployer's boot waves**
  (`BootWaves`) and **PCIe address canonicalisation** (`Pcie`).

`EtcdStore` is the abstract etcd they share: a revision-counted map, leases and
compare-then-write transactions. `Radix` and `Wrappers` are small helpers.
`dafny verify dfyconfig.toml` checks the whole project.

Code that changes state step by step is a class or a method with a loop, proved
against functions on values; the properties that span calls are lemmas about
those functions. A run is a list of states and the events between them, and a
theorem about runs is about every such list.

## What is assumed about etcd

- Every instance is granted a non-zero lease id that no other instance has, and
  a lease asked for by id is granted under that id.
- The key of a lock request is named after the lock and the lease; the earliest
  create revision holds the lock; a lock call returns only while that is so.
- A keep-alive is answered with a positive time to live, and a question for the
  time to live with a non-negative one, exactly while etcd has the lease.
- Expiry deletes the keys attached to the lease. A lock key may also vanish at
  any other time.
- Only a keeper's own lock call creates its lock key, and one its caller no
  longer waits for creates none later. Owner puts and other writes may take
  effect at any later time or never, also after their caller gave up on them.
- Other writers leave the lock keys and the owner record alone.
- A transaction is atomic, and a missing key compares as lease 0 and revision 0.
- On one watch, etcd does not send a change twice or a change older than the
  requested start, a start of 0 means from now on, and an ended watch sends
  nothing; header revisions are positive, do not decrease and bound their
  events. Only the theorems about delivery and loss use this.
- Keys are text, well-formed under section 4 of RFC 3629.

## Where the code differs from what it says

The model follows the code.

- The Reconnect delay is the larger, not the smaller, of five seconds and one
  more than before (`utils/pstor/src/etcd_keep_alive.rs:381`), so it is not
  capped; `LeaseKeeper.ReconnectDelay` gives it for every number of failures.
- The page limit error says that the minimum is 2, but 2 is refused
  (`utils/pstor/src/error.rs:83`, `utils/pstor/src/etcd.rs:235`,
  `PagedScan.GetValuesPaged`).
- The range end of a prefix is described for any key, but a prefix that ends in
  byte 7F or BF is refused (`utils/pstor/src/etcd.rs:525-534`,
  `PagedScan.RangeEndAccepted`).
- A key that is queued but not yet granted the lock satisfies the write fence
  too; `LeaseWitness.HolderGuarantee` says in which phases that matters.
- An instance that has been replaced may enter Locked again, because its owner
  check and its owner put are separate calls
  (`utils/pstor/src/etcd_keep_alive.rs:448-465`). `OwnerRecord.GrantDecidesIff`
  says when: what it could read at the lock reply decides.
- An owner put that its caller gave up on may land when the caller no longer
  holds the lock, and record it over the holder
  (`utils/pstor/src/etcd_keep_alive.rs:463-465`);
  `OwnerRecord.RecordedByHolderIff` says when.
- A watch that etcd ends after accepting it is kept as if it were live
  (`utils/pstor/src/etcd_watcher.rs:202-211`); `WatchLoss.SilentAfterEnd` says
  what follows.
- A reconnection starts every watch after the newest header
  (`utils/pstor/src/etcd_watcher.rs:144-148`), so it can lose changes still due
  on other prefixes; `WatchLoss.SurvivesLossIff` says which, and
  `WatchLoss.DeliveryLosesChange` gives a run.
- Registering a prefix again on a live stream leaves its older watch id live
  (`utils/pstor/src/etcd_watcher.rs:171-172`); `WatchDelivery.AtMostOnceIff`
  says what follows.
- A delete between pages can make the paged read drop a key it never returned
  (`utils/pstor/src/etcd.rs:291-293`); `PagedChanges.MissedIffDropped` and
  `PagedChanges.AllReturnedIff` say when, and `PagedChanges.ScanLosesKey` gives
  a read.
- A ranged value is described as 0 to 100; the checked constructor refuses 100
  and the constant one takes it (`utils/weighted-scoring/src/range.rs:11-27`,
  `WeightedScore.RangedConstructorsDisagree`).
- Merging samples is said to keep the order; it does for the samples already
  there, while new ones end up in front, the last one first
  (`utils/pstor-usage/src/resources.rs:120-133`,
  `ResourceSamples.MergeAppendsIff`).

## Model

| member | source | states |
|---|---|---|
| `LeaseKeeper.LeaseIdStrInjective` | utils/pstor/src/etcd_keep_alive.rs:197-199 | two signed 64-bit lease ids have the same hexadecimal form exactly when they are equal, so comparing the recorded owner as text compares instances |
| `LeaseKeeper.LockKeyInjective` | utils/pstor/src/etcd_keep_alive.rs:142-162 | under one lock, keys of different leases differ and keys of one lease agree |
| `LeaseKeeper.LeaseLockInfo.LeaseLock` | utils/pstor/src/etcd_keep_alive.rs:29-37 | the published pair, or not ready while the lease is withdrawn |
| `LeaseKeeper.LeaseLockInfo.SetLease` | utils/pstor/src/etcd_keep_alive.rs:55-58 | replaces the published lease and leaves the lock key |
| `LeaseKeeper.SingletonLock.constructor` | utils/pstor/src/etcd_keep_alive.rs:164-176 | the keeper starts in Locked with its own lease and key, both published |
| `LeaseKeeper.SingletonLock.Next` | utils/pstor/src/etcd_keep_alive.rs:377-560 | one cycle of the seven-state machine takes and replaces the state, keeps the ids and keys in it the instance's own, withdraws the lease only in LeaseExpired and publishes it only in Locked, and gives up exactly in Replaced |
| `LeaseKeeper.SingletonLock.LockingCycle` | utils/pstor/src/etcd_keep_alive.rs:445-491 | the owner check, the lock call and the owner put, with every failure's successor state |
| `LeaseKeeper.ReconnectDelay` | utils/pstor/src/etcd_keep_alive.rs:379-384 | after n failed attempts the delay is 1 second for n = 0 and n + 4 otherwise; it stays within five seconds if and only if n is at most 1 |
| `LeaseKeeper.EnteredBecause` | utils/pstor/src/etcd_keep_alive.rs:377-560 | for each of the seven states, exactly when a cycle ends in it: which call failed, whose record was found, whether the lease was answered for; an error starts over at a delay of one second |
| `LeaseKeeper.SingletonLock.KeepLockAlive` | utils/pstor/src/etcd_keep_alive.rs:220-224 | the loop over cycles: with every call answered well it is in KeepAlive, with the lease published, after at most as many cycles as the state is away from it, and stays there |
| `EtcdStore.FencedWrite` | utils/pstor/src/etcd.rs:109-113 | a guarded write touches only the keys of its operation and never moves revisions back |
| `EtcdStore.Expire` | utils/pstor/src/etcd_keep_alive.rs:562-563 | expiry removes exactly the keys attached to the lease |
| `EtcdClient.Server.FencedTxn` | utils/pstor/src/etcd.rs:109-119 | compare-lease-then-write is all or nothing, and reports which |
| `EtcdClient.Server.RevisionTxn` | utils/pstor/src/etcd.rs:383-389 | compare-revision-then-put is all or nothing, and reports which |
| `EtcdClient.Client.Write` | utils/pstor/src/etcd.rs:102-137 | puts and deletes: refused as not ready without a published lease, refused with the store unchanged when the fence fails, never refused without lease info; Ok means that every key of the operation is written or gone and no other changed |
| `EtcdClient.Client.GetObj` | utils/pstor/src/etcd.rs:414-429 | the value with the revision a later swap must expect, or a missing entry |
| `EtcdClient.Client.PutObjCas` | utils/pstor/src/etcd.rs:376-412 | succeeds exactly on the expected revision, and otherwise changes nothing |
| `EtcdClient.WriteMeansDone` | utils/pstor/src/etcd.rs:102-185 | for every fence, none included: a write that returns Ok has been done, key by key, and one that returns an error changed nothing; it returns Ok exactly without lease info or when the lock key carries the published lease, and not ready exactly when the lease is withdrawn |
| `EtcdClient.ReadYourWrites` | utils/pstor/src/etcd.rs:414-429 | after a write that returned Ok, a put is read back under a revision never used before, a deleted key is missing, and any other key reads as before |
| `EtcdClient.CasMeansSwapped` | utils/pstor/src/etcd.rs:376-412 | a swap succeeds exactly on the revision a read gives, or 0 for a missing key; then the value is there under a newer revision, and no other key changed |
| `LeaseProtocol.LocalOk` | utils/pstor/src/etcd_keep_alive.rs:377-548 | every step of an instance keeps its lease, its program counter and its published pair consistent with its state |
| `LeaseProtocol.InstancesOkStep` | utils/pstor/src/etcd_keep_alive.rs:127-189 | every event of the cluster keeps that for all instances and for all writes under way; no instance is lost and none changes its lease |
| `LeaseProtocol.OnStoreLocks` | utils/pstor/src/etcd_keep_alive.rs:451-458 | an instance's step leaves every lock key but its own alone and creates only that, as the newest |
| `LeaseProtocol.LockKeysStep` | utils/pstor/src/etcd_keep_alive.rs:451-458 | a lock key appears in the store only when its own instance's lock request is served |
| `LeaseProtocol.OwnerStep` | utils/pstor/src/etcd_keep_alive.rs:262-269 | the owner record changes only by an owner put whose fence passes, and is never attached to a lease |
| `LeaseProtocol.CreateRevsStep` | utils/pstor/src/etcd_keep_alive.rs:451-458 | no two lock keys ever share a create revision |
| `LeaseProtocol.OwnKeyStep` | utils/pstor/src/etcd_keep_alive.rs:451-458 | an instance's own key is either unchanged or gone until its request is served |
| `LeaseProtocol.GrantStep` | utils/pstor/src/etcd_keep_alive.rs:460-470 | whoever was told it holds the lock holds it for as long as its key exists, whatever anyone else does |
| `LeaseProtocol.LeaseStep` | utils/pstor/src/etcd_keep_alive.rs:453-456 | an instance's lock key always carries that instance's lease |
| `LeaseProtocol.InvStep` | utils/pstor/src/etcd_keep_alive.rs:233-255 | the whole invariant survives every event |
| `LeaseProtocol.InvAt` | utils/pstor/src/etcd_keep_alive.rs:220-224 | the invariant holds at every state of every run |
| `LeaseProtocol.Lasting` | utils/pstor/src/etcd_keep_alive.rs:166-176 | over any stretch of a run instances stay, keep their leases, and revisions only grow |
| `LeaseProtocol.StepIsCycle` | utils/pstor/src/etcd_keep_alive.rs:233-255 | each interleaved step of a keeper leaves its state or ends one cycle of `SingletonLock.Next`, whose answers are what the store gives at that step and, for the owner check earlier in the cycle, what it concluded |
| `LeaseSafety.AtMostOneHolder` | utils/pstor/src/etcd_keep_alive.rs:451-458 | at most one lease holds the lock |
| `LeaseSafety.CommitFindsKey` | utils/pstor/src/etcd.rs:348-358 | a fenced write that commits found its own instance's lock key |
| `LeaseSafety.CommitsComeFromTheHolder` | utils/pstor/src/etcd.rs:344-373 | in every interleaving, a write committing while its keeper believes itself granted is the one holder's, and no other instance that believes itself granted could pass the fence then |
| `LeaseSafety.LockKeysSince` | utils/pstor/src/etcd_keep_alive.rs:451-458 | a lock key seen later is the one seen before or was created after everything that existed then |
| `LeaseSafety.FencingTokenMonotone` | utils/pstor/src/etcd_keep_alive.rs:445-491 | the holder's create revision never goes back over a run, and stays the same only with the same holder |
| `LeaseSafety.KeyStaysGone` | utils/pstor/src/etcd_keep_alive.rs:451-458 | a missing lock key stays missing until its instance's request is served |
| `LeaseSafety.KeyGoneAfterExpiry` | utils/pstor/src/etcd_keep_alive.rs:562-563 | so it is missing from an expiry of the lease until then |
| `LeaseSafety.ExpiryFencesWrites` | utils/pstor/src/etcd.rs:102-137 | after its lease expired, no write of an instance takes effect until its lock request is served again, however early it read the pair |
| `LeaseSafety.WithdrawnUntilLocked` | utils/pstor/src/etcd_keep_alive.rs:429-441 | from an expiry cycle to the next Locked cycle the published lease stays withdrawn |
| `LeaseSafety.RefusedUntilLocked` | utils/pstor/src/etcd_keep_alive.rs:29-37 | so every write begun in that time is refused and changes nothing |
| `LeaseSafety.PublishedPairIsCurrent` | utils/pstor/src/etcd_keep_alive.rs:164-176 | at every state of every run the published lock key is the current one and the published lease, if any, the one granted at start |
| `LeaseSafety.CheckVerdict` | utils/pstor/src/etcd_keep_alive.rs:203-219 | an owner check that reads the record gives up exactly when the record is there and not the instance's own, in particular when any other instance is recorded |
| `LeaseSafety.ReplacedIsFinal` | utils/pstor/src/etcd_keep_alive.rs:551-559 | Replaced is never left |
| `LeaseSafety.LockingCycleWasChecked` | utils/pstor/src/etcd_keep_alive.rs:447-448 | an instance in a Locking cycle passed an owner check at its start, and has been in that cycle since |
| `LeaseSafety.LockedOnlyAfterCheck` | utils/pstor/src/etcd_keep_alive.rs:445-491 | after start, Locked is entered only so, by the lock holder, with its own id in the owner record |
| `LeaseProgress.StartVerdict` | utils/pstor/src/etcd_keep_alive.rs:127-189 | a start ends in a running keeper exactly with an owner put that took effect and was answered, and then the instance holds the lock, is in Locked and is recorded; it fails exactly when the lock or the put is not had |
| `LeaseProgress.FailedIsFinal` | utils/pstor/src/etcd_keep_alive.rs:146-157 | an instance whose start failed never runs and never begins a write |
| `LeaseProgress.TickVerdict` | utils/pstor/src/etcd_keep_alive.rs:519-548 | in every run, a KeepAlive tick leads to LeaseGrant exactly when etcd answered for the lease and no longer has it, to Reconnect exactly when a call failed, and otherwise stays |
| `LeaseProgress.ProbeVerdict` | utils/pstor/src/etcd_keep_alive.rs:393-401 | making sure of the lease goes on to Locking exactly when etcd answered and has it, and otherwise asks for a new grant |
| `LeaseProgress.NeverStuck` | utils/pstor/src/etcd_keep_alive.rs:377-548 | an instance on its way always has a step that etcd can answer, whatever its state |
| `LeaseProgress.StepOnCourse` | utils/pstor/src/etcd_keep_alive.rs:377-548 | each answered step keeps it on its way, and brings it nearer to KeepAlive or leaves it there |
| `LeaseProgress.KeeperSettles` | utils/pstor/src/etcd_keep_alive.rs:220-224 | from any state but Replaced, with no other lock key, the record free or its own and etcd having the lease, key and record its state relies on, twelve answered steps bring an instance to KeepAlive with its lease alive, the lock held, its id recorded and its lease published, and there it stays, however other writes, expiries of other leases and late commits interleave |
| `LeaseSafety.BeginThenCommitIsWrite` | utils/pstor/src/etcd.rs:102-137 | a write begun and at once committed is one `Client.Write` with the published pair, refusals included |
| `LeaseSafety.CommitIsLateWrite` | utils/pstor/src/etcd.rs:102-137 | a write that reaches etcd later is the call it would be then, with the pair it read |
| `LeaseWitness.HolderGuarantee` | utils/pstor/src/etcd_keep_alive.rs:536-539 | for each phase of a keeper: only the holder's writes commit in every run if and only if the keeper has been told it holds the lock; a run to the contrary is given for every other phase |
| `LeaseWitness.TwoMayBelieveGranted` | utils/pstor/src/etcd_keep_alive.rs:519-548 | a run in which one keeper is in KeepAlive and another in Locked |
| `OwnerRecord.SameTenureIff` | utils/pstor/src/etcd.rs:348-349 | a lock key has the create revision it had before if and only if no lock request of its instance was served without it in between; the fence compares the lease alone and passes in both cases |
| `OwnerRecord.HoldsUntilRequeuedIff` | utils/pstor/src/etcd_keep_alive.rs:451-458 | an instance that held the lock and whose key is there now holds it now, if and only if the key was not lost and queued again behind one that is still there |
| `OwnerRecord.RecordChangesByPut` | utils/pstor/src/etcd_keep_alive.rs:262-269 | the owner record changes only by an owner put whose fence passes, under the writer's own key |
| `OwnerRecord.OwnerRecordWrittenByHolder` | utils/pstor/src/etcd_keep_alive.rs:262-269 | an owner put its caller waits for takes effect only while the caller holds the lock, even if its lease expired since the lock reply |
| `OwnerRecord.RecordedByHolderIff` | utils/pstor/src/etcd_keep_alive.rs:460-470 | whoever writes the owner record, late puts included, was granted the lock before, and holds it then if and only if its key was not lost and queued again behind one that is still there |
| `OwnerRecord.RecordIsLastPut` | utils/pstor/src/etcd_keep_alive.rs:213-219 | at every state of every run the record is as the last owner put left it |
| `OwnerRecord.OvertakenSinceCheckIff` | utils/pstor/src/etcd_keep_alive.rs:448-465 | since a passed owner check, the record has become another's if and only if the last owner put since was another's |
| `OwnerRecord.GrantDecidesIff` | utils/pstor/src/etcd_keep_alive.rs:460-466 | an instance enters Locked over another's record if and only if the record was another's at the lock reply or the last late put to land since made it so |
| `OwnerWitness.WriteOutlivesTenure` | utils/pstor/src/etcd.rs:348-358 | a run in which a write commits under a key created after the write was begun, behind the holder's |
| `OwnerWitness.ReplacedMayLockAgain` | utils/pstor/src/etcd_keep_alive.rs:448-466 | a run in which an instance replaced since its owner check enters Locked over the other's record |
| `OwnerWitness.NonHolderMayRecord` | utils/pstor/src/etcd_keep_alive.rs:463-465 | a run in which an owner put given up on lands over the holder's record, from an instance queued behind the holder |
| `CompareAndSwap.KeyStep` | utils/pstor/src/etcd.rs:383-389 | any put, delete, expiry or swap leaves an entry as it was or moves its key on for good |
| `CompareAndSwap.WriteIsNewer` | utils/pstor/src/etcd.rs:383-389 | whatever writes a key gives it a revision never used before |
| `CompareAndSwap.InvAt` | utils/pstor/src/etcd.rs:414-429 | every entry a client has read is what the key holds or has been moved on from, at every state of every run |
| `CompareAndSwap.EntrySince` | utils/pstor/src/etcd.rs:414-429 | the same between any two states of a run, for any key |
| `CompareAndSwap.MatchingRevisionMeansUntouched` | utils/pstor/src/etcd.rs:376-429 | if the revision got at one state still matches at a later one, the key was the same at every state between |
| `CompareAndSwap.SwapIsAtomicUpdate` | utils/pstor/src/etcd.rs:376-412 | a swap that succeeds replaces exactly the value its client read |
| `CompareAndSwap.NoLostUpdate` | utils/pstor/src/etcd.rs:376-429 | among any puts, leased puts, deletes, prefix deletes, expiries and swaps, every key holds at every moment the fold of its events, each successful swap applied to the value the fold holds |
| `CompareAndSwap.SwapFindsValue` | utils/pstor/src/etcd.rs:383-388 | a successful swap always has a value in that fold to apply to |
| `CompareAndSwap.ReadIsGetObj` | utils/pstor/src/etcd.rs:414-429 | a read of the model is what `Client.GetObj` returns |
| `CompareAndSwap.SwapIsPutObjCas` | utils/pstor/src/etcd.rs:376-412 | a swap of the model is `Client.PutObjCas` on the revision read |
| `Utf8.NoHighBytes` | utils/pstor/src/etcd.rs:528-531 | no byte of a text is FF, so the loop always raises the last byte |
| `Utf8.RaiseLast` | utils/pstor/src/etcd.rs:526-533 | raising the last byte of a text gives a text exactly when that byte is not 7F or BF |
| `Utf8.ValidIff` | utils/pstor/src/etcd.rs:533 | bytes pass the text check if and only if they are the encoding of some sequence of characters, surrogates excluded |
| `PagedScan.GetPrefixRangeEnd` | utils/pstor/src/etcd.rs:525-534 | edits the bytes from the end and returns the raised prefix, or an error when that is not text |
| `PagedScan.RangeEndAccepted` | utils/pstor/src/etcd.rs:525-534 | the range end is accepted if and only if the prefix does not end in byte 7F or BF |
| `PagedScan.RangeIsPrefix` | utils/pstor/src/etcd.rs:239-249 | for every text prefix, the range from the prefix to its end holds exactly the keys with that prefix, the empty prefix included |
| `PagedScan.PageIsPage` | utils/pstor/src/etcd.rs:239-255 | one page is the least keys of the range, in order, at most the limit, with nothing left out before its end |
| `PagedScan.GetValuesPaged` | utils/pstor/src/etcd.rs:229-270 | limits up to 2 are refused; any other gets its page |
| `PagedScan.GetValuesPrefix` | utils/pstor/src/etcd.rs:207-226 | the plain read: every pair under the prefix, once, in key order |
| `PagedScan.TakeStep` | utils/pstor/src/etcd.rs:288-299 | one more page keeps the output ascending, under the prefix and complete up to the cursor, and makes progress |
| `PagedScan.FinishedIsPrefixRead` | utils/pstor/src/etcd.rs:274-301 | a finished scan of an unchanged store is the plain read |
| `PagedScan.ScanAll` | utils/pstor/src/etcd.rs:283-300 | the loop terminates and returns the plain read, for every limit of at least 3 |
| `PagedScan.GetValuesPagedAll` | utils/pstor/src/etcd.rs:274-301 | the whole operation: the plain read, or a range end error, or a page limit error, each exactly when due |
| `PagedChanges.ScanInOrder` | utils/pstor/src/etcd.rs:288-299 | whatever changes between pages, deletes included, the output is strictly ascending, under the prefix, and made of entries etcd had |
| `PagedChanges.DropsIffCursorLost` | utils/pstor/src/etcd.rs:291-293 | a page loses an entry that is not its cursor's if and only if the cursor's key was deleted while a later key of the prefix remains |
| `PagedChanges.DroppedStaysOut` | utils/pstor/src/etcd.rs:291-293 | a key dropped from a page is in no output of the scan, before that page or after it |
| `PagedChanges.MissedIffDropped` | utils/pstor/src/etcd.rs:274-301 | a finished scan misses a key that was there at every page if and only if one of its pages dropped that key |
| `PagedChanges.AllReturnedIff` | utils/pstor/src/etcd.rs:288-299 | the output has every key etcd returned if and only if no page had its cursor deleted with a later key left |
| `PagedChanges.ScanUnderPuts` | utils/pstor/src/etcd.rs:288-299 | with only puts between pages, a finished scan contains every matching key present at the start, in strictly ascending order |
| `PagedChanges.ScanLosesKey` | utils/pstor/src/etcd.rs:291-293 | a read of four keys with limit 3 that ends without a key that was never deleted |
| `WatchSpec.AddWatchOk` | utils/pstor/src/etcd_watcher.rs:152-175 | a watch id issued is fresh, and the id maps stay mutually consistent |
| `WatchSpec.AddWatchKeepsOneIdIff` | utils/pstor/src/etcd_watcher.rs:170-173 | adding a watch leaves one live id per prefix if and only if the prefix was not watched already |
| `WatchSpec.DelWatchOk` | utils/pstor/src/etcd_watcher.rs:176-183 | removing a watch removes exactly that prefix and keeps the maps consistent |
| `WatchSpec.WatchAllOk` | utils/pstor/src/etcd_watcher.rs:140-151 | a new stream watches exactly the listed prefixes, one id each, from where each resumes |
| `WatchSpec.ConnectedOk` | utils/pstor/src/etcd_watcher.rs:140-151 | a connection watches exactly the registered prefixes, each after everything received so far or, before anything was received, from where it was registered |
| `WatchRunner.WatchConfig.Take` | utils/pstor/src/etcd_watcher.rs:50-62 | a request adds, replaces or removes one registration |
| `WatchRunner.WatchConfig.Update` | utils/pstor/src/etcd_watcher.rs:63-82 | notes the revision of a registered prefix and calls its registrant; does nothing for any other |
| `WatchRunner.WatchConfig.UpdateResponse` | utils/pstor/src/etcd_watcher.rs:83-92 | a header moves the global revision and without one it stays; a response counts as heard and clears the request for progress |
| `WatchRunner.StreamedWatcher.WatchKeyPrefix` | utils/pstor/src/etcd_watcher.rs:152-175 | the three maps after a watch is asked for |
| `WatchRunner.StreamedWatcher.WatchKeyPrefixes` | utils/pstor/src/etcd_watcher.rs:140-151 | the loop over the registered prefixes, in key order, builds the connected stream |
| `WatchRunner.StreamedWatcher.DelWatchKeyPrefix` | utils/pstor/src/etcd_watcher.rs:176-183 | the three maps after a watch is dropped |
| `WatchRunner.StreamedWatcher.NotifyEvents` | utils/pstor/src/etcd_watcher.rs:193-245 | one response: who is called with which changes in which order, and the table and maps afterwards, or a reconnection with nothing changed |
| `WatchRunner.Runner.HandleRequestIdle` | utils/pstor/src/etcd_watcher.rs:301-313 | the first requests |
| `WatchRunner.Runner.HandleRequest` | utils/pstor/src/etcd_watcher.rs:317-342 | a request while watching changes table and stream together, or the table alone when the stream is given up |
| `WatchRunner.Runner.DripPendingRequests` | utils/pstor/src/etcd_watcher.rs:373-394 | up to a hundred queued requests are applied in order; the closing is seen only once the queue is empty |
| `WatchRunner.Runner.HandleConnecting` | utils/pstor/src/etcd_watcher.rs:398-415 | closed, watching everything registered, or reconnecting |
| `WatchRunner.Runner.HandleReconnecting` | utils/pstor/src/etcd_watcher.rs:346-369 | queued requests first, then one attempt, which succeeds exactly when the stream comes up and etcd takes every watch, and is counted if it fails |
| `WatchRunner.Runner.HealthCheck` | utils/pstor/src/etcd_watcher.rs:446-476 | the loop over the waiting ids and the silence check: reconnects on an overdue watch or on a second silence, and asks for progress once |
| `WatchRuns.InvStep` | utils/pstor/src/etcd_watcher.rs:266-297 | every event of the runner keeps the table, the queue and the stream in step |
| `WatchRuns.TableIsTheFold` | utils/pstor/src/etcd_watcher.rs:301-415 | at every state of every run the table, revisions included, is the fold, in send order, of the requests taken with the revisions noted and the callbacks' removals in between; a stream watches exactly the registered prefixes; Closed is reached only with every request applied |
| `WatchRuns.StreamIdsAreSound` | utils/pstor/src/etcd_watcher.rs:114-126 | at every watching state ids are below the next one, every prefix's id leads back to it, and waiting ids are live |
| `WatchRuns.OpsGrow` | utils/pstor/src/etcd_watcher.rs:266-297 | what has happened to the table is only ever added to |
| `WatchRevisions.KeptRevIsLast` | utils/pstor/src/etcd_watcher.rs:63-73 | the revision kept with a registration is that of the last change its registrant was called with, or the one it registered with |
| `WatchStates.ClosesIff` | utils/pstor/src/etcd_watcher.rs:301-394 | the runner closes exactly when the queue is closed and it finds nothing in it: when it takes single requests with none left, and before a reconnection with fewer than a hundred left; then everything sent has been applied |
| `WatchStates.ShutsDown` | utils/pstor/src/etcd_watcher.rs:266-297 | once the queue is closed, one look for requests more than there are requests left ends the runner, whatever etcd does, with everything sent applied and no step after it |
| `WatchStates.IdleIff` | utils/pstor/src/etcd_watcher.rs:301-313 | the runner is idle exactly as long as it has taken no registration and has not ended |
| `WatchStates.AttemptVerdict` | utils/pstor/src/etcd_watcher.rs:346-415 | an attempt to connect that does not end the runner leads to watching exactly what the table holds if it succeeds, and to reconnecting if and only if it fails |
| `WatchStates.AttemptsAreFailures` | utils/pstor/src/etcd_watcher.rs:346-369 | the count of attempts is the number of reconnections that failed since the stream was given up |
| `WatchHealth.WaitingIsUnaccepted` | utils/pstor/src/etcd_watcher.rs:208-210 | at every watching state of every run, the ids waiting are exactly the ids of this stream for which no created response has come |
| `WatchHealth.RequestedIsSilent` | utils/pstor/src/etcd_watcher.rs:88-92 | progress stands requested if and only if a check was silent and no response and no connection attempt has come since |
| `WatchHealth.CheckGivesUpIff` | utils/pstor/src/etcd_watcher.rs:446-476 | a health check gives the stream up if and only if a watch asked for too long ago was never accepted on it, or this check and an earlier one were silent with no response and no connection attempt between |
| `WatchLoop.Loop.Enqueue` | utils/pstor/src/etcd_watcher.rs:496-510 | a request sent is one step of a run |
| `WatchLoop.Loop.Close` | utils/pstor/src/etcd_watcher.rs:512-515 | so is the closing of the queue |
| `WatchLoop.Loop.TakeFirst` | utils/pstor/src/etcd_watcher.rs:273 | the idle branch of the loop is one step of a run |
| `WatchLoop.Loop.Take` | utils/pstor/src/etcd_watcher.rs:279 | so is a request taken while watching |
| `WatchLoop.Loop.Join` | utils/pstor/src/etcd_watcher.rs:274 | so is a first connection, with exactly the outcome of the handler |
| `WatchLoop.Loop.Rejoin` | utils/pstor/src/etcd_watcher.rs:285-287 | so is a reconnection, with the queue it leaves |
| `WatchLoop.Loop.Receive` | utils/pstor/src/etcd_watcher.rs:280 | so is a response, with the callbacks it makes |
| `WatchLoop.Loop.Fail` | utils/pstor/src/etcd_watcher.rs:438-442 | so is a stream that ends or fails |
| `WatchLoop.Loop.Check` | utils/pstor/src/etcd_watcher.rs:281 | so is a health check |
| `WatchDelivery.DeliveryStep` | utils/pstor/src/etcd_watcher.rs:193-245 | every event keeps each registration's deliveries accounted for by what its current watch has sent or starts after |
| `WatchDelivery.AtMostOnce` | utils/pstor/src/etcd_watcher.rs:140-151 | across any number of reconnections no change reaches the same registration twice, if header revisions do not decrease and bound their events and no live prefix is registered again |
| `WatchDelivery.AtMostOnceIff` | utils/pstor/src/etcd_watcher.rs:171-172 | with a registration next in the queue of a live stream, that is safe whatever follows if and only if the prefix is not registered already; otherwise a run with a repeated delivery is given |
| `WatchDelivery.OnlyRegisteredCalled` | utils/pstor/src/etcd_watcher.rs:213-237 | a callback goes only to the registrant of a currently registered prefix, with a change of the response for that prefix's watch |
| `WatchDelivery.RemovalTakesEffect` | utils/pstor/src/etcd_watcher.rs:239-242 | a response in which the callback asked for removal leaves its prefix unregistered |
| `WatchDelivery.SilentAfterRemoval` | utils/pstor/src/etcd_watcher.rs:239-242 | and the prefix gets no callback until it is registered again |
| `WatchDelivery.KeptUnlessAsked` | utils/pstor/src/etcd_watcher.rs:239-242 | a response leaves a registered prefix registered if and only if no callback for it asked for removal |
| `WatchLoss.OwedOnStream` | utils/pstor/src/etcd_watcher.rs:193-245 | on one stream a change due on a prefix's watch stays due until it is sent or etcd ends the watch, and nothing else becomes due |
| `WatchLoss.SilentAfterEnd` | utils/pstor/src/etcd_watcher.rs:202-211 | when etcd ends an accepted watch the code goes on as before, and the prefix hears nothing until the stream is lost or it is registered again |
| `WatchLoss.SentIsDelivered` | utils/pstor/src/etcd_watcher.rs:214-237 | what is sent on a registered prefix's watch reaches its registrant |
| `WatchLoss.OwedOnJoinIff` | utils/pstor/src/etcd_watcher.rs:144-148 | on a new stream a change is due if and only if it is newer than the last header or, before any header, at or after the registered revision, where 0 means from then on |
| `WatchLoss.OwedAfterJoinIff` | utils/pstor/src/etcd_watcher.rs:144-148 | the same for the rest of that stream, less what was sent or lost with an ended watch |
| `WatchLoss.SurvivesLossIff` | utils/pstor/src/etcd_watcher.rs:144-148 | a change due when its stream is lost is due on the next one, after any failed attempts and any requests for other prefixes, if and only if it is newer than the last header or, before any header, its watch was asked from a revision or the change comes later |
| `WatchLoss.LostForGood` | utils/pstor/src/etcd_watcher.rs:144-148 | once the stream is down with a header at or past a change, the registrant never gets it on any continuation unless it had it already |
| `WatchLoss.DeliveryLosesChange` | utils/pstor/src/etcd_watcher.rs:144-148 | a run in which revision 5 is due on one prefix, revision 6 arrives on another, the stream is lost, and revision 5 is never sent |
| `WeightedScore.DualGradeIsShare` | utils/weighted-scoring/src/value.rs:26-45 | grading gives each candidate its share of a hundred, the rival's when lower is better; it overflows exactly when a value is over a hundredth of the largest word |
| `WeightedScore.GradesSum` | utils/weighted-scoring/src/value.rs:32-44 | the two percentages sum to 100 when the split is whole or both values are zero, and to 99 otherwise |
| `WeightedScore.GradeIsFloor` | utils/weighted-scoring/src/value.rs:26-45 | a grade is the largest whole percentage within the exact share; two zeros get 50 each |
| `WeightedScore.FinalScoresInRange` | utils/weighted-scoring/src/weighted_score.rs:43-50 | scores exist exactly when the weights sum to at most 100, otherwise the error carries the sum; both scores together stay within the weights |
| `WeightedScore.FullWeightsScoreFully` | utils/weighted-scoring/src/weighted_score.rs:43-50 | with weights of exactly 100 the two scores sum to between 98 and 100 |
| `WeightedScore.FinalScoresRoundDown` | utils/weighted-scoring/src/weighted_score.rs:49 | each score is the whole hundredths of what was accrued |
| `WeightedScore.ScoreNearMean` | utils/weighted-scoring/src/weighted_score.rs:64-86 | a score is at most the exact weighted mean of the shares, taken over reals, and less than two points below it |
| `WeightedScore.RangedConstructorsDisagree` | utils/weighted-scoring/src/range.rs:11-27 | the checked and the constant constructor disagree exactly at 100, a score the scorer can give |
| `WeightedScore.Dominance` | utils/weighted-scoring/src/weighted_score.rs:64-86 | for any criteria, a candidate at least as good under each never scores lower |
| `WeightedScore.SwapSymmetry` | utils/weighted-scoring/src/weighted_score.rs:64-86 | swapping the candidates swaps the scores, and keeps the error |
| `WeightedScore.ImprovingHelps` | utils/weighted-scoring/src/weighted_score.rs:64-86 | improving values of one side, any number of them, never lowers its score nor raises the other's |
| `WeightedScore.AccumulatorsBounded` | utils/weighted-scoring/src/weighted_score.rs:33-37 | the accumulators grow by at most ten thousand a criterion |
| `WeightedScore.WeightedScoreSingle.WeighRef` | utils/weighted-scoring/src/weighted_score.rs:33-37 | adds weight times score and weight, and overflows exactly when a sum does not fit |
| `WeightedScore.WeightedScoreSingle.Score` | utils/weighted-scoring/src/weighted_score.rs:43-50 | the error on excess weight; otherwise the whole hundredths of what was accrued, within 0 to 100 for any weighings, although nothing checks it |
| `WeightedScore.DualValWeightedScore.Weigh` | utils/weighted-scoring/src/weighted_score.rs:73-82 | the accumulators stand for the list of criteria weighed so far, one longer, unless something does not fit a word |
| `WeightedScore.DualValWeightedScore.Score` | utils/weighted-scoring/src/weighted_score.rs:84-86 | the scores of that list |
| `ResourceSamples.AccruePoints` | utils/pstor-usage/src/resources.rs:78-88 | row by row sum, as long as the longer list; overflows if and only if a sum does not fit a word |
| `ResourceSamples.Samples.Absorb` | utils/pstor-usage/src/resources.rs:125-129 | accrues into the first sample of the name or appends; overflows if and only if the result does not fit |
| `ResourceSamples.Samples.Extend` | utils/pstor-usage/src/resources.rs:120-133 | the loop between the two reversals computes the merged list; it overflows on the way if and only if some point of that list does not fit a word |
| `ResourceSamples.MergeConserves` | utils/pstor-usage/src/resources.rs:120-133 | for every name and row, the merged total is the sum of both totals, with missing rows as zero and repeated names on either side |
| `ResourceSamples.MergeKeepsOrder` | utils/pstor-usage/src/resources.rs:120-133 | the names after merging: the new ones, last first, then the existing ones in their order |
| `ResourceSamples.MergeAppendsIff` | utils/pstor-usage/src/resources.rs:120-133 | the new names follow the old ones in order of appearance if and only if there are none, or there is a single one and none before |
| `ResourceSamples.MergeKeepsUnique` | utils/pstor-usage/src/resources.rs:120-133 | unique names stay unique whatever is added |
| `ResourceSamples.MergeKeepsLength` | utils/pstor-usage/src/resources.rs:78-88 | the column of a name is after merging as long as the longest of that name on either side |
| `ResourceSamples.Rows` | utils/pstor-usage/src/simulation.rs:320-348 | the nested loops print each column's running sum, as many rows as the longest column, none when all are empty; a sum overflows if and only if a column's total does not fit a word |
| `ResourceSamples.LastRowIsTotals` | utils/pstor-usage/src/simulation.rs:331-347 | the last row shows every column's total, which no cell exceeds |
| `Extrapolation.NewRunStats` | utils/pstor-usage/src/simulation.rs:259-266 | each growth is the difference of the sizes at its ends, together they are the growth of the run, and they exist exactly when the size never shrank |
| `Extrapolation.DayColumn` | utils/pstor-usage/src/extrapolation.rs:166-171 | as many rows as fit, summing to the days, all equal but a last row that takes the remainder and is the longest |
| `Extrapolation.DayColumnUnique` | utils/pstor-usage/src/extrapolation.rs:166-196 | no other split of the days into rows has that form |
| `Extrapolation.Table` | utils/pstor-usage/src/extrapolation.rs:166-204 | the four columns, each at its daily rate for the days of each row; overflows if and only if a rate times the longest row does not fit a word |
| `Extrapolation.TotalUsage` | utils/pstor-usage/src/extrapolation.rs:155-161 | the daily use, made of the two rounded averages, and that times the days, or the first panic in source order |
| `Extrapolation.DailyIsAverages` | utils/pstor-usage/src/extrapolation.rs:155-159 | the daily use is cycles times the whole bytes of growth per modification plus turnover times the whole bytes of growth per created and deleted volume, each quotient rounded down |
| `Extrapolation.FitsOnce` | utils/pstor-usage/src/extrapolation.rs:155-159 | a rounded-down quotient is determined by its bounds, and so is the daily use |
| `Extrapolation.FaultIff` | utils/pstor-usage/src/extrapolation.rs:155-161 | a zero count panics exactly when the sum of the growths fits a word; an overflow is that sum or the total over the days; nothing else goes wrong |
| `Extrapolation.TotalFitsIff` | utils/pstor-usage/src/extrapolation.rs:155-161 | every intermediate number fits a word if and only if the total over the days does |
| `Extrapolation.TableWithinTotals` | utils/pstor-usage/src/extrapolation.rs:166-202 | if the totals over all days fit a word, so does every number of the table |
| `Extrapolation.Extrapolate` | utils/pstor-usage/src/extrapolation.rs:150-210 | the total is the daily use times the days; fails exactly on a zero divisor or on a number that does not fit a word, with the first such error on the way to the total; the table only when wanted |
| `Extrapolation.ColumnsSumToTotals` | utils/pstor-usage/src/extrapolation.rs:173-202 | every column has min(entries, days) rows and sums to its total over the days |
| `Extrapolation.ResultRows` | utils/pstor-usage/src/extrapolation.rs:239-241 | the printed table has min(entries, days) rows, and its last row shows the days, both counts and the total usage; printing fails if and only if the total fails or one of those numbers does not fit a word |
| `BootWaves.StableSortOk` | deployer/src/infra/mod.rs:263 | the list is sorted by boot order and each wave keeps its members and their order |
| `BootWaves.OrdersMet` | deployer/src/infra/mod.rs:200-205 | on a sorted list the loop meets strictly increasing boot orders |
| `BootWaves.WavesPartition` | deployer/src/infra/mod.rs:206-210 | the waves of a sorted list, one after the other, are the list |
| `BootWaves.EachStartedOnce` | deployer/src/infra/mod.rs:173-220 | a boot that goes through starts every component exactly once, in strictly increasing waves, waiting or not |
| `BootWaves.StartsAfterEarlierWaves` | deployer/src/infra/mod.rs:197-220 | the waiting boot starts no component until every component of all earlier orders was started and waited for, also when it fails later |
| `BootWaves.FailedBootStarts` | deployer/src/infra/mod.rs:190 | a boot that fails issued the starts of the orders up to the failed one, each once, and no others |
| `BootWaves.StoppedIsWaitedBoot` | deployer/src/infra/mod.rs:215-216 | a failed waiting boot did nothing but the beginning of a full one |
| `BootWaves.Components.constructor` | deployer/src/infra/mod.rs:254-265 | every component that is not an agent once and the chosen agents as often as chosen, and nothing else, sorted by boot order |
| `BootWaves.DeployedExactly` | deployer/src/infra/mod.rs:254-265 | every component that is not an agent is deployed once, and of the agents those chosen, as often as chosen |
| `BootWaves.WavesByName` | deployer/src/infra/mod.rs:437-454 | which components are in which of the four waves |
| `BootWaves.Components.StartAll` | deployer/src/infra/mod.rs:173-194 | waves in order until the first that fails; succeeds exactly when none does |
| `BootWaves.Components.StartWaitInner` | deployer/src/infra/mod.rs:197-220 | the same with a wait after each wave, either of which may fail |
| `Pcie.PrintReadsBack` | utils/utils-lib/src/disk.rs:29-32 | a printed number reads back as itself and holds no separator |
| `Pcie.SplitFour` | utils/utils-lib/src/disk.rs:24-27 | four parts without separators are split back into the same four |
| `Pcie.FormatReadsBack` | utils/utils-lib/src/disk.rs:29-34 | every address in range is spelled by its canonical form |
| `Pcie.CanonicalLayout` | utils/utils-lib/src/disk.rs:29-34 | a canonical address has a fixed layout: the scheme, four, two and two digits and one to three, with their separators |
| `Pcie.CanonicalIsFixpoint` | utils/utils-lib/src/disk.rs:21-35 | canonicalising a canonical address changes nothing |
| `Pcie.CanonicalIffSameNumbers` | utils/utils-lib/src/disk.rs:21-35 | two accepted addresses get the same canonical string if and only if their domain, bus, device and function numbers are equal |
| `Pcie.CaseDoesNotMatter` | utils/utils-lib/src/disk.rs:21-35 | after the scheme, an address is read the same in upper and in lower case |
| `Pcie.SignAndZeros` | utils/utils-lib/src/disk.rs:29-32 | a plus sign and leading zeros do not change a number |
| `Pcie.ReadAsIff` | utils/utils-lib/src/disk.rs:29-32 | a text is read as n if and only if n fits the type and the text is an optional plus sign, zeros and the shortest digits of n in either case |

## Left out

- JSON encoding and decoding: values are opaque bytes, and the owner record is its lease id.
- Wall-clock time: sleeps, timeouts and back-off lengths are steps that may happen at any point.
- Revoking a lease on shutdown: it is covered as an expiry together with a removed lock key.
- Keys that are not text, and the panics of `cancel_by_id` and of an undecodable lock key.
- Single-key watches (`watch_kv`, `watch_obj`) and `get_kv`: thin wrappers over the client library.
- The gRPC, REST, Kubernetes and CSI services, command lines, certificates and table printing.
- The byte formatter in `utils/utils-lib/src/bytes.rs`: floating-point logarithms.
- `normalize_disk`: only its PCIe part is modelled, not the URL library around it.
- EtcdClient.Client.Write: one operation for `put_kv`, `put_obj`, `delete_kv` and `delete_values_prefix`, which differ only in the transaction's operation.
- EtcdStore.Expire: covers only the keys attached to a lease, because a time to live matters here only by whether the lease is there.
- LeaseKeeper.SingletonLock.Next: what etcd answers is an argument, and `process::exit` is a flag.
- WatchRunner.StreamedWatcher.NotifyEvents: the callbacks' answers are an argument; events without a readable key and value are taken as absent.
- WatchRunner.Runner.HealthCheck: which watches were asked for too long ago, and whether the last response came too long ago, are arguments.
- LeaseProgress.KeeperSettles: needs the lock free or its own from the start, because another instance may hold it for as long as it keeps its lease.
- WeightedScore.DualValWeightedScore.Weigh: arithmetic that does not fit a word is an error, as in a checked build; a release build wraps.
- WeightedScore.DualGradeIsShare: values carry no name, because no name enters a score.
- ResourceSamples.Samples.Extend: points that do not fit a word are an error, as in a checked build, and samples are values because the list owns them.
- Extrapolation.Extrapolate: numbers that do not fit a word are an error, as in a checked build; a release build wraps.
- BootWaves.Components.StartAll: the starts of one wave are one event, so which of them had begun when one failed is not modelled.
- BootWaves.Components.constructor: agents are recognised by kind rather than by comparing names with the suffix trimmed.
- Pcie.PrintReadsBack: the number parser and printer of the standard library are modelled by their documented behaviour.
