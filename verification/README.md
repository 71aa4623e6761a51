# Amazon EFS CSI driver: a verified model

The Amazon EFS CSI driver provisions volumes in two modes. In the access-point mode a volume is an access point of an existing file system. In the namespace mode (`efs-ns`) every Kubernetes namespace gets a file system of its own, created with its first claim and deleted after its last. This project models the parts of the driver whose correctness is not visible in any single function, and proves what holds in every run of them, whatever API call fails.

How the project is laid out:

- `Lifecycle.dfy` is the state machine of the namespace mode: the AWS account, the cache, the claim tracker and the finalizers, with one step for every request and controller action, and `LifecycleExact.dfy` says exactly what each of them does. `VolumeCycle.dfy` follows the first volume of a namespace from its creation to the finalization of its claim. `Driver.dfy` holds the imperative components and proves that each is a step of it. `Threads.dfy` takes the manager's calls apart, one API call or cache access at a time, and lets them interleave; `ThreadCache.dfy` says exactly when that leaves the cache wrong, and `ThreadCalls.dfy` that calls which do not overlap are operations of the lifecycle. `Tags.dfy` is the naming and tagging that makes a file system findable.
- `Cache.dfy`, `Tracker.dfy` and `Finalizers.dfy` are the three stores the lifecycle works on.
- `Recovery.dfy`, `Breaker.dfy` and `Retry.dfy` are creation with rollback, the circuit breaker, and the backoff loop around it.
- `LockManager.dfy`, `VolStatter.dfy` and `GidAllocator.dfy` are the keyed lock, the rate-limited volume statistics and the GID allocator.
- `AccessPoints.dfy`, `DeleteVolume.dfy`, `SubPath.dfy`, `MountOptions.dfy`, `MountText.dfy` and `VolumeIds.dfy` are the access-point mode: provisioning, deletion through a temporary mount, directory patterns, mount options and identifiers. `Paths.dfy` and `Strings.dfy` are the Go library functions they use; `Types.dfy`, `Numbers.dfy` and `Collections.dfy` are shared.

Conventions. What the outside world answers is an argument: whether a call succeeds, what a listing returns and in which order, which identifier AWS gives out, what time it is. A class whose fields the driver changes in place is a class here; its methods are proved against functions on values (`View()` before and after), and the theorems are about those functions. A property that turns out not to hold of the code has a lemma that says exactly when it does.

Where the promises of the driver end. The following are consequences of the code as it is, and are stated as lemmas:

- A volume whose claim could not be tracked is handed out all the same, and its file system can then be deleted under it (`Lifecycle.UntrackedVolumeLosesItsFileSystem`).
- The finalization of a claim reads the volume ID from the storage-provisioner annotation first, and Kubernetes keeps the name of the provisioner there: the claim is untracked and the file system of a last claim stays (`Lifecycle.AnnotatedClaimKeepsFileSystem`, `VolumeCycle.CreateThenFinalizeExactly`).
- A lookup that goes to AWS stores the number of claims, and while that entry lives a deletion after the last claim is refused (`Lifecycle.LookupBeforeLastFinalization`).
- `processNamespaceFinalization` takes the finalizer off a namespace whose file system it failed to delete, unlike `ProcessNamespaceDeletion` (`Lifecycle.FinalizationLeavesFileSystemExactly`).
- A user tag `Name` is not reserved, and makes a file system pass for another namespace's when the call that sets its name fails (`Tags.WrongNamespaceExactly`), and until then even if it succeeds (`Threads.NameTagShowsBetween`).
- A failed read of a storage class makes a synchronisation drop a live claim (`Tracker.LiveClaimSurvives`).
- Two callers can hold one lock: the recheck after the reference count tests the ID and not the entry, and an unlock or a timeout deletes the ID after others may have come (`LockManager.LookupRace`, `LockManager.DeleteRace`, `LockManager.TimeOutRace`). `LockManager.SoundExactly` says which runs are free of this.
- A goroutine left by a timed-out caller keeps the mutex of a lock for good once it gets it (`LockManager.OrphanForever`).
- Calls that overlap can leave a deleted file system in the cache with nothing left to drop it: a lookup that stores what it saw before a deletion, or one that stores a file system whose creation is then undone (`ThreadCache.InterleavedLookupCachesDeleted`, `ThreadCache.UndoneCreationStaysCached`). `ThreadCache.SoundExactly` says which runs are free of this.
- Failed statistics jobs keep their slot for good: `VolStatter.NeverStartsExactly` says which volumes never get a job again. With a rate limit of 0 the first job of a file system is its last, also if it completes, because its counter stays in the map and is never below the limit (`VolStatter.ZeroLimitBlocksExactly`).
- With `gidMax` at the int64 maximum and the range full, the GID search wraps around (`GidAllocator.GetNextGid`).
- Access points made with explicit IDs outside the GID range, or under a base path that cleaning changes, such as `//data`, are refused when the same request comes again (`AccessPoints.OwnAccessPointAcceptedExactly`, `AccessPoints.RefusedForever`).
- A deletion that cannot remove the access point's directory reports success, because the error is assigned to a shadowed variable (`DeleteVolume.DataLeftExactly`, `DeleteVolume.DataLeftForever`).

## Model

| member | source | states |
|---|---|---|
| `Lifecycle.EveryRunIsSafe` | pkg/driver/efs-ns/manager.go:113-342 | In every run of volume requests, finalizations, lookups, synchronisations, expiries and restarts with arbitrary failures, from any start of the driver with whatever it finds tracked, a tracked claim's file system exists and was created for its namespace, so was a live cache entry's, which is the only one findable, and no namespace has two findable file systems |
| `Lifecycle.StartedExactly` | pkg/driver/efs-ns/cache.go:94-109 | A restart after any run is again a start of the driver: the cache is empty, what is tracked and the finalizers are kept |
| `Lifecycle.RunKeeps` | pkg/driver/efs-ns/manager.go:113-342 | Every run keeps the joint invariant of account, cache, tracker and time, from any state that has it |
| `Lifecycle.NextKeeps` | pkg/driver/controller.go:429-612 | Every single step keeps that invariant |
| `Lifecycle.FindIn` | pkg/driver/efs-ns/manager.go:345-376 | The search finds a file system with the name and a managed tag if the listing has one, and otherwise none of the listing has them |
| `Lifecycle.GetInfoKeeps` | pkg/driver/efs-ns/manager.go:254-286 | A lookup reports the only findable file system of the namespace, which was created for it and is cached afterwards; "not found" means there is none, cached or not |
| `Lifecycle.MakeKeeps` | pkg/driver/efs-ns/manager.go:488-593 | A creation, with any of its calls failing and its cleanup failing too, adds at most one file system and never a second findable one |
| `Lifecycle.CreateOrGetKeeps` | pkg/driver/efs-ns/manager.go:113-174 | What is handed out exists, was created for the namespace and is what the cache says |
| `Lifecycle.DeleteKeeps` | pkg/driver/efs-ns/manager.go:177-251 | A successful deletion leaves nothing to find and happens only without tracked claims; a failed one leaves the account as it was |
| `Lifecycle.NothingIsNotFound` | pkg/driver/efs-ns/manager.go:254-286 | "Nothing left" is exactly what makes a lookup with a complete listing say that the file system is not found |
| `Lifecycle.TrackKeeps` | pkg/driver/controller.go:494-508 | The mapping recorded for a new volume names the file system the volume is on, through the printed and parsed volume ID |
| `Lifecycle.SyncFromAwsKeeps` | pkg/driver/efs-ns/manager.go:311-342 | Refreshing the cache from AWS keeps every entry on the file system and namespace it was for |
| `Lifecycle.DeletionReleasesOnlyWhenClean` | pkg/driver/efs-ns/namespace_controller.go:227-309 | ProcessNamespaceDeletion takes off the finalizer only when the manager can find no file system for the namespace; tracked claims keep the account untouched even if their count cannot be read |
| `Lifecycle.DeletionElsewhere` | pkg/driver/efs-ns/namespace_controller.go:227-309 | Processing one namespace adds nothing and takes nothing from another namespace |
| `Lifecycle.ReconcileReleasesOnlyWhenClean` | pkg/driver/efs-ns/namespace_controller.go:509-548 | After a whole reconciliation every namespace that lost its finalizer has nothing left to find, and a namespace with claims kept all its file systems |
| `Lifecycle.FinalizationLeavesFileSystemExactly` | pkg/driver/efs-ns/finalizer.go:399-461 | processNamespaceFinalization takes the finalizer off with a file system left to find exactly when there was one and one of the deletion's calls or conditions failed |
| `Lifecycle.CreatedVolumeTrackedExactly` | pkg/driver/controller.go:429-551 | A created volume is tracked exactly when its claim has a name, both tracker calls succeed and the cluster ID has no separator in it; it is then tracked on the file system of the namespace |
| `VolumeCycle.CreateThenFinalizeExactly` | pkg/driver/efs-ns/finalizer.go:335-396 | From every state with nothing left of the namespace and with every call working, the first volume of a namespace and the finalization of its claim give back account, tracker and finalizers as they were if and only if the claim's annotation is a volume ID, or is empty and its volume names one |
| `VolumeCycle.BoundClaimRestores` | pkg/driver/efs-ns/finalizer.go:353-363 | So a claim without the annotation, bound to the volume it was given, is undone completely |
| `Lifecycle.DeleteExactly` | pkg/driver/efs-ns/manager.go:177-251 | A deletion succeeds exactly without tracked claims and with a lookup and calls that work, and leaves nothing to find exactly if it succeeded or there was nothing |
| `Lifecycle.FinalizeClaimExactly` | pkg/driver/efs-ns/finalizer.go:335-396 | Without a volume ID to read, from annotation or volume, nothing happens; otherwise the claim is untracked, the account is left alone while other claims are tracked, and the file system is freed exactly when it was the last claim, what was read parses and the deletion goes through |
| `Lifecycle.AnnotatedClaimKeepsFileSystem` | pkg/driver/efs-ns/finalizer.go:353-389 | For every annotation that is no volume ID the claim is untracked and nothing else changes |
| `Lifecycle.ProvisionerNameKeepsFileSystem` | pkg/driver/efs-ns/finalizer.go:353-389 | So it is for an annotation without the separator, such as a provisioner's name |
| `Lifecycle.StaleCountRefuses` | pkg/driver/efs-ns/manager.go:214-228 | A live cache entry that remembers claims refuses every deletion |
| `Lifecycle.LookupBeforeLastFinalization` | pkg/driver/efs-ns/manager.go:254-286 | A lookup that goes to AWS while the last claim is tracked makes that claim's finalization leave the file system, for every outcome of its calls |
| `Lifecycle.UntrackedVolumeLosesItsFileSystem` | pkg/driver/controller.go:500-508 | In every state with a deletable cached file system and no claims, an untracked volume is handed out on it and the next deletion removes it |
| `Lifecycle.DeleteVolumeKeepsOtherClaims` | pkg/driver/controller.go:554-612 | Deleting a volume removes only a claim of a made-up name, so any other claim keeps the file system, for every outcome of the calls |
| `LifecycleExact.LookupExactly` | pkg/driver/efs-ns/manager.go:254-286 | What a lookup says, for every live entry, listing and failure, and what it stores: the listed state, the number of claims if it could be read, the time |
| `LifecycleExact.CreationExactly` | pkg/driver/efs-ns/manager.go:113-174 | Which file system a creation hands out: the one that is found, or else the one it makes if the wait and the mount targets work; it is cached, and the account has what was made unless its cleanup took it away |
| `LifecycleExact.VolumeExactly` | pkg/driver/controller.go:429-551 | A volume request succeeds exactly for a namespace label, a cluster ID and a file system it comes to, and the text of the volume ID names that one |
| `LifecycleExact.DeletionExactly` | pkg/driver/efs-ns/manager.go:177-251 | A deletion goes through exactly if the ID parses, the count works and is zero, and the listing shows nothing, or what is found is available or in error with no claims remembered and both deletes work; it takes exactly that file system and its entry |
| `LifecycleExact.UnsettledRefused` | pkg/driver/efs-ns/types.go:189-192 | A found file system that is still being created, or being deleted, is refused |
| `LifecycleExact.DeleteVolumeExactly` | pkg/driver/controller.go:554-612 | Success for an ID that does not parse, failure exactly if the made-up claim cannot be untracked, and otherwise the file system goes exactly if its deletion goes through without that claim |
| `LifecycleExact.ClaimExactly` | pkg/driver/efs-ns/finalizer.go:335-396 | The account after the finalization of a claim, for every annotation, volume and failure |
| `LifecycleExact.ClaimVolumeExactly` | pkg/driver/efs-ns/finalizer.go:353-363 | Which volume ID a claim is finalized by, in every case |
| `LifecycleExact.SyncExactly` | pkg/driver/efs-ns/manager.go:311-342 | A live entry whose describe call works is dropped if its file system is gone, and otherwise carries the new state, count and time; every other entry stays |
| `LifecycleExact.UpkeepExactly` | pkg/driver/efs-ns/cache.go:257-291 | The steps that are not calls: time passes and entries lapse, sweeps and restarts of the cache, and synchronisations of the tracker, each with nothing else changed |
| `LifecycleExact.UntrackExactly` | pkg/driver/efs-ns/tracker.go:191-263 | A claim is untracked exactly if the namespace and the claim are named and the calls work, the write only where there is a ConfigMap |
| `LifecycleExact.CleanupExactly` | pkg/driver/efs-ns/namespace_controller.go:572-602 | The cleanup of a namespace succeeds exactly if there is nothing to find and the listing works, or what is found may be deleted and every call works, and takes exactly that |
| `LifecycleExact.ProcessDeletionExactly` | pkg/driver/efs-ns/namespace_controller.go:227-309 | When ProcessNamespaceDeletion succeeds, and what becomes of the finalizers and the account in every case |
| `LifecycleExact.FinalizationExactly` | pkg/driver/efs-ns/finalizer.go:399-461 | Nothing happens without the finalizer, or while claims are counted, which is a failure; otherwise the finalizer goes if it can be removed, whatever the deletion did |
| `LifecycleExact.ReconcileSkips` | pkg/driver/efs-ns/namespace_controller.go:509-548 | A namespace of which no listed one is being deleted with the finalizer on it keeps its file systems, its entry and its finalizer |
| `LifecycleExact.ReconcileProcesses` | pkg/driver/efs-ns/namespace_controller.go:509-548 | With exactly one such namespace in the listing its finalizer and its file system go exactly if nothing is counted and the cleanup and the removal work, whatever else is listed |
| `Tags.NameForInjective` | pkg/driver/efs-ns/manager.go:39-41 | For one cluster two namespaces never share a file system name |
| `Tags.BuildTags` | pkg/driver/efs-ns/manager.go:695-719 | The loop over the user's tags, in any order, gives the system tags with the user's unreserved ones added |
| `Tags.SystemTagsWin` | pkg/driver/efs-ns/manager.go:708-716 | A user tag never changes, adds or removes a reserved tag, and every other user tag is kept |
| `Tags.BuiltExactly` | pkg/driver/efs-ns/manager.go:695-719 | The six tags with their values, and every user tag outside the reserved prefix |
| `Tags.TaggedExactly` | pkg/driver/efs-ns/manager.go:557-567 | The tags after the tag call and the name call, for every outcome |
| `Tags.FindableText` | pkg/driver/efs-ns/manager.go:998-1015 | Which tags make a file system found for a namespace, whoever set them |
| `Tags.FindableExactly` | pkg/driver/efs-ns/manager.go:345-376 | Which namespace finds a file system, for every outcome of the tag call and the name call |
| `Tags.WrongNamespaceExactly` | pkg/driver/efs-ns/manager.go:695-719 | A file system is found for a namespace it was not made for exactly when the tags were set, the name was not, and a user tag gives that namespace's name |
| `Tags.NamesNoOtherExactly` | pkg/driver/efs-ns/manager.go:695-719 | No outcome of the two calls is taken for another namespace's file system if and only if no user tag gives another namespace's name |
| `Threads.AtMostOneFindable` | pkg/driver/efs-ns/manager.go:113-251 | For every interleaving of creations, lookups and deletions, each API call and cache access a step of its own and any of them failing, and for every change of the cache in between: never two findable file systems for a namespace, none findable for the wrong one, and at most one creation in its critical section |
| `Threads.NextKeeps` | pkg/driver/efs-ns/manager.go:132-174 | Each step keeps what the holder of the mutex relies on: after an empty listing, no file system of the namespace becomes findable until it has named its own |
| `Threads.HolderKeeps` | pkg/driver/efs-ns/manager.go:532-568 | Creating, tagging or naming a file system under the mutex keeps uniqueness |
| `Threads.ShrinkKeeps` | pkg/driver/efs-ns/manager.go:229-244 | A deletion that does not take the mutex is harmless to it |
| `ThreadCache.SoundExactly` | pkg/driver/efs-ns/manager.go:113-286 | For every interleaving: at every moment each cache entry names an existing file system of its namespace, or a deletion is about to drop it, if and only if every step is sound: what is stored is still there, what is deleted no other entry names, and other changes of the cache bring in such entries only |
| `ThreadCache.StepExactly` | pkg/driver/efs-ns/manager.go:113-286 | The same for each single step |
| `ThreadCache.SoundRunCache` | pkg/driver/efs-ns/manager.go:254-286 | After a sound run an entry that no deletion is about to drop names a file system that exists and was created for its namespace |
| `ThreadCache.SerialIsSound` | pkg/driver/efs-ns/manager.go:113-286 | Every run with one call at a time is sound, with any call failing and entries expiring at any time |
| `ThreadCache.InterleavedLookupCachesDeleted` | pkg/driver/efs-ns/manager.go:177-286 | From every idle state any findable file system can end up deleted and cached with both calls over: a lookup sees it, a deletion removes it and clears the cache, the lookup stores what it saw |
| `ThreadCache.UndoneCreationStaysCached` | pkg/driver/efs-ns/manager.go:557-575 | Without any deletion too: a lookup stores a file system whose mount targets then fail, and the cleanup of the creation leaves the entry |
| `ThreadCalls.CallIsOperation` | pkg/driver/efs-ns/manager.go:113-286 | A call that runs alone from its start to its end, with any of its steps failing, does what the lifecycle operation does for some outcome of its API calls |
| `ThreadCalls.CallsAreOperations` | pkg/driver/efs-ns/manager.go:113-286 | A run of calls that do not overlap is, whenever none is under way, a run of lifecycle operations |
| `ThreadCalls.CallsKeepInvariant` | pkg/driver/efs-ns/manager.go:113-286 | So the invariant of the lifecycle holds between any two such calls |
| `Threads.NameTagShowsBetween` | pkg/driver/efs-ns/manager.go:557-567 | Between the two calls, both succeeding, the file system is found for exactly the namespace the user's Name tag names, and after them for exactly its own |
| `DriverModel.Driver.FindByName` | pkg/driver/efs-ns/manager.go:360-373 | The search loop is the search |
| `DriverModel.Driver.FindExistingFileSystem` | pkg/driver/efs-ns/manager.go:345-468 | A failed listing, no match, or the record of the match, with a count that cannot be read taken for zero |
| `DriverModel.Driver.GetFileSystemInfo` | pkg/driver/efs-ns/manager.go:254-286 | The method on the mutable cache is the lookup step |
| `DriverModel.Driver.CreateFileSystem` | pkg/driver/efs-ns/manager.go:488-593 | The creation, call by call on the mutable account, is the creation step |
| `DriverModel.Driver.CreateOrGetFileSystemForNamespace` | pkg/driver/efs-ns/manager.go:113-174 | The method is the create-or-get step |
| `DriverModel.Driver.DeleteFileSystemForNamespace` | pkg/driver/efs-ns/manager.go:177-251 | The method is the deletion step, with every refusal in its place |
| `DriverModel.Driver.GetFileSystemFromAws` | pkg/driver/efs-ns/manager.go:379-413 | It fails for a failed call or a missing namespace tag, reports a missing file system, and otherwise the record under the tag's namespace |
| `DriverModel.Driver.SyncFromAWS` | pkg/driver/efs-ns/manager.go:311-342 | The loop over the live entries, in any order, refreshes each entry independently of the others |
| `DriverModel.Driver.CreateEFSNSVolume` | pkg/driver/controller.go:429-551 | The request is the create-volume step |
| `DriverModel.Driver.DeleteEFSNSVolume` | pkg/driver/controller.go:554-612 | The request is the delete-volume step |
| `DriverModel.Driver.CleanupClaim` | pkg/driver/efs-ns/finalizer.go:352-387 | Reading the volume ID, untracking and deleting are the finalize-claim step |
| `DriverModel.Driver.ProcessPVCFinalization` | pkg/driver/efs-ns/finalizer.go:335-396 | Without the finalizer nothing happens; with it the claim is cleaned up, and whatever that did, success means that the finalizer is off the list read then |
| `DriverModel.Driver.CleanupNamespaceFilesystem` | pkg/driver/efs-ns/namespace_controller.go:572-602 | The cleanup is the cleanup step |
| `DriverModel.Driver.ProcessNamespaceDeletion` | pkg/driver/efs-ns/namespace_controller.go:227-309 | The method is the process-deletion step |
| `DriverModel.Driver.ProcessNamespaceFinalization` | pkg/driver/efs-ns/finalizer.go:399-461 | The method is the finalize-namespace step |
| `DriverModel.Driver.ReconcileNamespaces` | pkg/driver/efs-ns/namespace_controller.go:509-548 | The loop is the reconciliation of the listing |
| `Cache.GetIsLastLiveWrite` | pkg/driver/efs-ns/cache.go:111-175 | For every history and non-decreasing clock, Get returns a value exactly if it is the last one set since the last delete or clear and is within the TTL in force when it was set |
| `Cache.CleanupInvisible` | pkg/driver/efs-ns/cache.go:271-286 | Leaving every cleanup out of a history changes no later Get and no later List |
| `Cache.SweepExactly` | pkg/driver/efs-ns/cache.go:270-291 | A sweep keeps exactly the entries within their TTL, or without one |
| `Cache.ListIsGet` | pkg/driver/efs-ns/cache.go:178-195 | List is Get at every namespace |
| `Cache.MemoryCache.constructor` | pkg/driver/efs-ns/cache.go:94-108 | A new cache is empty, with the default TTL |
| `Cache.MemoryCache.Get` | pkg/driver/efs-ns/cache.go:111-133 | A live entry, or nothing for an empty name, a missing or an expired entry |
| `Cache.MemoryCache.Store` | pkg/driver/efs-ns/cache.go:136-157 | Set replaces one entry with the TTL in force, and ignores an empty name or no record |
| `Cache.MemoryCache.Remove` | pkg/driver/efs-ns/cache.go:160-175 | Delete takes out one entry |
| `Cache.MemoryCache.List` | pkg/driver/efs-ns/cache.go:178-195 | The loop, in any order, returns exactly the live entries |
| `Cache.MemoryCache.Refresh` | pkg/driver/efs-ns/cache.go:198-224 | A failed refresh changes nothing; a successful one sets or removes the entry |
| `Cache.MemoryCache.ChangeTTL` | pkg/driver/efs-ns/cache.go:227-235 | A new TTL does not touch existing entries |
| `Cache.MemoryCache.RemoveAll` | pkg/driver/efs-ns/cache.go:238-246 | Clear empties the cache and keeps the TTL |
| `Cache.MemoryCache.CleanupExpiredEntries` | pkg/driver/efs-ns/cache.go:271-286 | The loop deletes exactly the expired entries |
| `Tracker.AddIsInsert` | pkg/driver/efs-ns/tracker.go:91-188 | Adding inserts one claim into one namespace's set and changes no other |
| `Tracker.RemoveIsDelete` | pkg/driver/efs-ns/tracker.go:191-263 | Removing deletes one claim; the namespace is dropped, and its count zero, exactly when nothing else was in it |
| `Tracker.AddRemove` | pkg/driver/efs-ns/tracker.go:91-263 | Removing a claim that was just added restores the book |
| `Tracker.SyncIsIntersection` | pkg/driver/efs-ns/tracker.go:383-449 | A synchronised namespace keeps exactly the claims recognised as live efs-ns claims, unchanged; one that fails keeps all |
| `Tracker.SyncIdempotent` | pkg/driver/efs-ns/tracker.go:340-449 | Synchronising twice is synchronising once |
| `Tracker.SyncFailsExactly` | pkg/driver/efs-ns/tracker.go:383-449 | A tracked namespace fails to synchronise exactly if its listing fails, or a write that has to drop a claim |
| `Tracker.LiveClaimSurvives` | pkg/driver/efs-ns/tracker.go:383-449 | A live claim survives a synchronisation without reported failure exactly when its storage class could be read as an efs-ns one |
| `Tracker.DroppedLiveClaim` | pkg/driver/efs-ns/tracker.go:399-425 | Such a loss for any claim: the read of its class fails, no failure is reported and the claim is gone |
| `Tracker.ConfigMapNameInjective` | pkg/driver/efs-ns/tracker.go:452-454 | Distinct namespaces have distinct ConfigMaps |
| `Tracker.WriteIsRewrite` | pkg/driver/efs-ns/tracker.go:140-188 | Writing or deleting one ConfigMap rewrites one namespace of the book; a ConfigMap exists exactly for the namespaces with claims |
| `Tracker.ConfigMapTracker.constructor` | pkg/driver/efs-ns/tracker.go:83-88 | A new tracker tracks nothing |
| `Tracker.ConfigMapTracker.AddPVC` | pkg/driver/efs-ns/tracker.go:91-188 | Success exactly for named arguments, a volume ID that parses and both calls succeeding; then one claim is added, otherwise nothing changes |
| `Tracker.ConfigMapTracker.RemovePVC` | pkg/driver/efs-ns/tracker.go:191-263 | "Empty" is reported exactly when the call succeeded and no claim is left; a failed call changes nothing |
| `Tracker.ConfigMapTracker.GetPVCCount` | pkg/driver/efs-ns/tracker.go:266-298 | The number of claims, or an error exactly for an empty name or a failed call |
| `Tracker.ConfigMapTracker.ListPVCsInNamespace` | pkg/driver/efs-ns/tracker.go:301-337 | Every claim of the namespace once |
| `Tracker.ConfigMapTracker.CollectRecognised` | pkg/driver/efs-ns/tracker.go:396-412 | The loop collects exactly the claims whose class reads as efs-ns |
| `Tracker.ConfigMapTracker.DropStale` | pkg/driver/efs-ns/tracker.go:414-422 | The loop keeps exactly the collected claims, and says whether it dropped one |
| `Tracker.ConfigMapTracker.SyncNamespace` | pkg/driver/efs-ns/tracker.go:383-449 | One namespace is synchronised, or left alone on failure |
| `Tracker.ConfigMapTracker.SyncWithCluster` | pkg/driver/efs-ns/tracker.go:340-380 | Whatever the order of the ConfigMaps, the result is the synchronised book, and success means that no namespace failed |
| `Finalizers.Filter` | pkg/driver/efs-ns/finalizer.go:181-190 | The rebuilding loop removes exactly the one finalizer and says whether it was there |
| `Finalizers.WithoutIsOthers` | pkg/driver/efs-ns/finalizer.go:277-298 | Removing leaves none of the one finalizer and every other as often as it was |
| `Finalizers.WithoutConcat` | pkg/driver/efs-ns/finalizer.go:277-298 | Removing works piece by piece, so the others keep their order |
| `Finalizers.AddThenRemove` | pkg/driver/efs-ns/finalizer.go:101-211 | Adding and removing gives back the list exactly when the finalizer was not in it |
| `Finalizers.UpdateFinalizers` | pkg/driver/efs-ns/finalizer.go:464-504 | Success exactly when one of at most five attempts, reached by failures without cancellation, works; what is written is the edit of the list read in that same attempt |
| `Recovery.RestoredExactly` | pkg/driver/efs-ns/enhanced_manager.go:162-281 | A creation that fails at any step leaves the account exactly as it was if and only if no delete of its rollback fails |
| `Recovery.RollbackLeaves` | pkg/driver/efs-ns/recovery.go:136-229 | What a rollback leaves, for every set of failing deletes: the mount targets whose delete failed, and with them their security group and file system |
| `Recovery.OldResourcesUntouched` | pkg/driver/efs-ns/recovery.go:136-229 | Whatever fails, nothing that was there before is touched and nothing but recorded resources can be left |
| `Recovery.CallsOf` | pkg/driver/efs-ns/recovery.go:170-212 | The deletes of a rollback are those of the recorded resources, all of them, mount targets before the rest |
| `Recovery.AllSucceedExactly` | pkg/driver/efs-ns/recovery.go:136-229 | In the order of the rollback AWS permits every delete, so all succeed exactly when none is failed by the API |
| `Recovery.CreatedExactly` | pkg/driver/efs-ns/enhanced_manager.go:162-281 | A creation succeeds exactly if every step does, and leaves all it made and all that was there, each mount target on its file system and security group |
| `Strings.LowerLetters` | pkg/driver/node.go:86-88 | Which letters are folded to lower case |
| `Recovery.ReportedExactly` | pkg/driver/efs-ns/recovery.go:136-229 | A rollback reports success exactly if no delete is failed and the wait for mount targets, if there are any, works |
| `Recovery.FileSystemFirstFails` | pkg/driver/efs-ns/recovery.go:194-212 | With a mount target in place neither the file system nor the security group can be deleted, so the order is needed |
| `Recovery.UnrecordedTargetKeepsFileSystem` | pkg/driver/efs-ns/enhanced_manager.go:218-238 | A mount target that was not recorded survives any rollback, and so does its file system |
| `Recovery.RecoveryManager.constructor` | pkg/driver/efs-ns/recovery.go:116-133 | A new recovery manager tracks no operation |
| `Recovery.RecoveryManager.Delete` | pkg/driver/efs-ns/recovery.go:418-443 | One more delete, counted among those before it |
| `Recovery.RecoveryManager.TrackOperation` | pkg/driver/efs-ns/recovery.go:402-406 | The operation is running |
| `Recovery.RecoveryManager.CompleteOperation` | pkg/driver/efs-ns/recovery.go:408-416 | Only a running operation becomes completed |
| `Recovery.RecoveryManager.DeleteMountTargets` | pkg/driver/efs-ns/recovery.go:170-182 | Every mount target gets its delete, also after failures, and success means that none failed |
| `Recovery.RecoveryManager.RollbackFileSystemCreation` | pkg/driver/efs-ns/recovery.go:136-229 | Every recorded resource gets its delete in order; success is reported, and the operation completed, exactly when no delete and no wait failed; the cache entry goes in any case; no record is an error that changes nothing |
| `Recovery.RecoveryManager.CreateFileSystemWithRecovery` | pkg/driver/efs-ns/enhanced_manager.go:162-281 | The record filled in step by step is what the failing step rolls back, and the account ends as the creation with its rollback leaves it |
| `Breaker.StateFromHistory` | pkg/driver/efs-ns/retry.go:97-151 | After any calls the breaker's phase and counters are determined by the outcomes of the executed calls |
| `Breaker.ClosedMeansFewFailures` | pkg/driver/efs-ns/retry.go:129-140 | A closed breaker has seen fewer than maxFailures failures in a row |
| `Breaker.OpenToClosed` | pkg/driver/efs-ns/retry.go:142-151 | Between open and closed lie three successes in a row, with no failure among them |
| `Breaker.RejectedExactly` | pkg/driver/efs-ns/retry.go:107-127 | A call is turned away exactly while the breaker is tripped, failed last, and failed less than the recovery timeout ago |
| `Breaker.DefaultRejectedExactly` | pkg/driver/efs-ns/retry.go:45-128 | The driver's breaker turns calls away for thirty seconds after ten failures without three successes in a row between them |
| `Breaker.FailedProbe` | pkg/driver/efs-ns/retry.go:129-139 | A failed probe opens the breaker again, with no successes counted |
| `Breaker.CircuitBreaker.constructor` | pkg/driver/efs-ns/retry.go:97-104 | A new breaker is closed |
| `Breaker.CircuitBreaker.Execute` | pkg/driver/efs-ns/retry.go:107-127 | The wrapped function runs exactly when the breaker does not reject, and its outcome is recorded |
| `Breaker.CircuitBreaker.RecordFailure` | pkg/driver/efs-ns/retry.go:129-140 | The failure transition |
| `Breaker.CircuitBreaker.RecordSuccess` | pkg/driver/efs-ns/retry.go:142-151 | The success transition |
| `Retry.DelayBounds` | pkg/driver/efs-ns/retry.go:199-218 | For every jitter factor up to one a delay is not negative and within its factor of the nominal value, either way |
| `Retry.BackoffDoubles` | pkg/driver/efs-ns/retry.go:199-219 | The delays double from the base delay until they reach the longest one |
| `Retry.DefaultDelays` | pkg/driver/efs-ns/retry.go:199-219 | By default they start at a tenth of a second and stay at thirty from the tenth one on |
| `Retry.TruncateExactly` | pkg/driver/efs-ns/retry.go:199-219 | The conversion of a float to a duration is the next integer towards zero |
| `Retry.DefaultWaitBound` | pkg/driver/efs-ns/retry.go:34-52 | With the default settings all delays of an operation together are at most 3.41 seconds |
| `Retry.StaysOpen` | pkg/driver/efs-ns/retry.go:154-196 | An open breaker whose recovery timeout outlasts the remaining delays turns away every remaining attempt |
| `Retry.OpenedNeverCalledAgain` | pkg/driver/efs-ns/retry.go:154-196 | Once a failure inside an operation opens the breaker, the wrapped function is not called again in that operation, for every configuration with a jitter factor up to one whose longest delays fit into the recovery timeout |
| `Retry.DefaultOpenedNeverCalledAgain` | pkg/driver/efs-ns/retry.go:333-346 | RetryableAWSOperation with the driver's settings is such a configuration, unless the timers are late by more than 26.59 seconds in all |
| `Retry.RoomStaysClosed` | pkg/driver/efs-ns/retry.go:154-196 | A closed breaker with more room than an operation has attempts is not opened by it |
| `Retry.DefaultStaysClosed` | pkg/driver/efs-ns/retry.go:333-346 | One operation cannot open a closed breaker without failures |
| `Retry.SucceedsExactly` | pkg/driver/efs-ns/retry.go:154-196 | Without a breaker an operation succeeds exactly when it reaches a successful attempt within its retries, through retryable errors and without cancellation |
| `Retry.TurnsExactly` | pkg/driver/efs-ns/retry.go:154-197 | Every turn of an operation: whether the breaker lets it through, its error, that another follows exactly after a retryable error or the breaker's with retries left and no cancellation, when that one starts, and which error is returned |
| `Retry.RetryWithExponentialBackoff` | pkg/driver/efs-ns/retry.go:154-196 | The loop around the mutable breaker makes exactly the calls, and ends with exactly the error, of the recursive definition the theorems are about |
| `LockManager.SoundExactly` | pkg/driver/lock_manager.go:30-106 | With every operation on the map, a count, a flag or a mutex a step of its own: everybody admitted for an ID is on the entry the map holds for it, all along a run, if and only if whoever passes or skips the recheck is on that entry and whoever deletes an ID finds nobody admitted for it |
| `LockManager.StepKeepsExactly` | pkg/driver/lock_manager.go:30-106 | A single step keeps that invariant, with exact counts, owners and flags, if and only if it meets that condition |
| `LockManager.MutualExclusion` | pkg/driver/lock_manager.go:30-106 | In every such run, with goroutines left behind by timeouts, at most one caller has the mutex of an ID |
| `LockManager.CountsAreCallers` | pkg/driver/lock_manager.go:30-106 | In every such run an ID with callers is in the map and its count is at least their number; with nobody in the middle of entering or leaving, it is in the map exactly while it has callers, with their number as its count |
| `LockManager.NothingLeft` | pkg/driver/lock_manager.go:85-106 | In every such run the map is empty once every caller has unlocked or timed out |
| `LockManager.UnbrokenIsSound` | pkg/driver/lock_manager.go:30-106 | Every run in which looking up and counting in, counting out and deleting, and the timeout's count and delete are not taken apart is such a run |
| `LockManager.LookupRace` | pkg/driver/lock_manager.go:34-48 | From every state with a sole holder a run leads to two holders, through a recheck that tests the ID and not the entry |
| `LockManager.DeleteRace` | pkg/driver/lock_manager.go:93-105 | From every such state a run leads to two holders, through a caller that comes between an unlock and its delete |
| `LockManager.TimeOutRace` | pkg/driver/lock_manager.go:66-72 | From every state with a sole waiter a run leads to two holders, through a caller that comes between a timeout's count and its delete |
| `LockManager.BlockedExactly` | pkg/driver/lock_manager.go:50-79 | A waiter is kept out exactly by a caller that has the mutex of its entry, or by a left-over goroutine that has it |
| `LockManager.OrphanForever` | pkg/driver/lock_manager.go:55-72 | A left-over goroutine that has got the mutex never gives it back, in any such run |
| `LockManager.OrphanStarvesWaiter` | pkg/driver/lock_manager.go:55-72 | From any state where an ID is held, a run of two more callers leads to a waiter kept out by such a goroutine |
| `LockManager.EachTimeOutLeavesOne` | pkg/driver/lock_manager.go:50-79 | In every sound run the goroutines left behind, waiting or with a mutex, are as many as there were timeouts |
| `LockManager.OrphanMarks` | pkg/driver/lock_manager.go:53-58 | Such a goroutine sets the flag of the entry it has locked, and changes nothing else |
| `LockManager.TimesOutExactly` | pkg/driver/lock_manager.go:66-72 | Only a timed lock times out, and it can until it is returned to its caller |
| `LockManager.BackOutExactly` | pkg/driver/lock_manager.go:43-47 | A caller that lost its entry starts again twice, and gives up after the third time |
| `LockManager.AtMostTwoMoreTries` | pkg/driver/lock_manager.go:43-47 | So in no run does a caller start again more than twice |
| `LockManager.LockManagerMap.constructor` | pkg/driver/lock_manager.go:21-25 | A new lock map is empty |
| `LockManager.LockManagerMap.LoadOrStore` | pkg/driver/lock_manager.go:35-36 | The load step, on the first try or a later one |
| `LockManager.LockManagerMap.CountIn` | pkg/driver/lock_manager.go:38-41 | The count step: with more than one reference the recheck is skipped |
| `LockManager.LockManagerMap.RecheckId` | pkg/driver/lock_manager.go:41-42 | The recheck step |
| `LockManager.LockManagerMap.CountBack` | pkg/driver/lock_manager.go:43-47 | The way back after a failed recheck, at most three times |
| `LockManager.LockManagerMap.LockEntry` | pkg/driver/lock_manager.go:57-77 | The lock step |
| `LockManager.LockManagerMap.MarkLocked` | pkg/driver/lock_manager.go:57-78 | The flag is set in a step of its own |
| `LockManager.LockManagerMap.GiveUpWaiting` | pkg/driver/lock_manager.go:66-72 | The timeout step: count out, leave the goroutine behind, and delete next if nobody is left |
| `LockManager.LockManagerMap.FindEntry` | pkg/driver/lock_manager.go:86-91 | The lookup of an unlock, which returns for an ID the map does not know |
| `LockManager.LockManagerMap.CountOut` | pkg/driver/lock_manager.go:93-94 | The count of an unlock |
| `LockManager.LockManagerMap.SwapLocked` | pkg/driver/lock_manager.go:96-97 | The flag decides whether the mutex is unlocked |
| `LockManager.LockManagerMap.UnlockEntry` | pkg/driver/lock_manager.go:97-99 | The unlock step |
| `LockManager.LockManagerMap.DeleteId` | pkg/driver/lock_manager.go:101-104 | The delete step of an unlock or a timeout |
| `LockManager.LockManagerMap.GetLockCount` | pkg/driver/lock_manager.go:109-121 | The count is the number of IDs in the map; each reference count is at least the number of its callers, and exactly that with nobody in the middle of something |
| `VolStatter.RunKeepsInv` | pkg/driver/vol_statter.go:95-173 | In every run of launches, completions and failures each file system's counter is the number of its tracked jobs and at most max(1, limit) |
| `VolStatter.EmptyInv` | pkg/driver/vol_statter.go:95-173 | A statter without jobs has exact counters |
| `VolStatter.DecrementGuard` | pkg/driver/vol_statter.go:151-157 | The positive-count guard on the decrement always holds |
| `VolStatter.LaunchDecision` | pkg/driver/vol_statter.go:95-113 | A launch starts a job exactly when the volume has none and its file system has a free slot, or no counter yet |
| `VolStatter.LeakedForever` | pkg/driver/vol_statter.go:116-135 | A failed job stays tracked, whatever happens later |
| `VolStatter.FailureLeaks` | pkg/driver/vol_statter.go:116-135 | A job that fails is gone, stays tracked and gives back no slot |
| `VolStatter.UsageIsLastCompleted` | pkg/driver/vol_statter.go:60-158 | The usage known of a volume is that of its last completed job, unless it was evicted since |
| `VolStatter.NeverStartsExactly` | pkg/driver/vol_statter.go:95-173 | No run ever starts a job for a volume again if and only if its own job has failed, or its file system has a counter and at least as many failed jobs as the limit |
| `VolStatter.LeakedSlotsBlock` | pkg/driver/vol_statter.go:116-173 | At the end of every run such a volume is still refused |
| `VolStatter.Unblocks` | pkg/driver/vol_statter.go:116-173 | For every other volume there is a run that starts its job: the running jobs of its file system complete |
| `VolStatter.ZeroLimitBlocksExactly` | pkg/driver/vol_statter.go:161-173 | With a limit of zero or less a volume never gets a job again if and only if its file system has had one |
| `VolStatter.Statter.CanStatFS` | pkg/driver/vol_statter.go:161-173 | A slot is taken exactly when there is room, and nothing changes otherwise |
| `VolStatter.Statter.LaunchRoutine` | pkg/driver/vol_statter.go:95-113 | The launch is the launch step |
| `VolStatter.Statter.FinishRoutine` | pkg/driver/vol_statter.go:116-158 | The end of a job is the complete step or the fail step |
| `VolStatter.Statter.RemoveFromCache` | pkg/driver/vol_statter.go:89-93 | The eviction step |
| `GidAllocator.GetUsedGids` | pkg/driver/gid_allocator.go:49-65 | Exactly the GIDs of the access points that have a POSIX user |
| `GidAllocator.Pigeonhole` | pkg/driver/gid_allocator.go:67-97 | A full interval needs at least as many access points as it has values |
| `GidAllocator.GetNextUnusedGid` | pkg/driver/gid_allocator.go:67-97 | For every int64 range: the least unused GID of the clamped range, an error when it is empty or full, and the wrapped search when it ends at the int64 maximum |
| `GidAllocator.GetNextGid` | pkg/driver/gid_allocator.go:28-46 | For the ranges CreateVolume lets through: the least free GID, an error exactly when the clamped range is full below the int64 maximum, a negative GID exactly when it is full up to it; never an error for at most 1000 access points and a width of at least 1000 |
| `GidAllocator.WrapAroundExample` | pkg/driver/gid_allocator.go:76-86 | Such a wrap-around |
| `GidAllocator.DefaultRangeNeverFails` | pkg/driver/controller.go:46-47 | The default range always yields a free GID in it |
| `VolumeIds.RoundTrip` | pkg/driver/efs-ns/types.go:71-115 | Parsing a printed namespace volume ID gives back the triple exactly for printable triples |
| `VolumeIds.PrintParsed` | pkg/driver/efs-ns/types.go:71-115 | Printing a parsed ID gives back every accepted string |
| `VolumeIds.ParsedNames` | pkg/driver/efs-ns/types.go:80-115 | For colon-free names an ID parses exactly if the cluster ID is not empty and has no separator in it, and then to the same names |
| `VolumeIds.ValidateNamespaceName` | pkg/driver/controller.go:1070-1101 | The validation loop accepts exactly the labels of section 2.1 of RFC 1123 |
| `VolumeIds.DnsLabelText` | pkg/driver/controller.go:1069-1100 | Which namespaces are accepted, by their length and characters |
| `VolumeIds.ValidNamespaceRoundTrip` | pkg/driver/efs-ns/types.go:71-115 | Every accepted namespace survives printing and parsing |
| `VolumeIds.ApRoundTrip` | pkg/driver/node.go:453-484 | The ID of an access-point volume parses back to its two parts exactly for well-formed parts |
| `VolumeIds.ModesDisjoint` | pkg/driver/node.go:487-489 | No ID is accepted in both modes |
| `Paths.JoinRootedIs` | pkg/driver/controller.go:357-360 | For every base path the joined directory is the base path's components, normalised, and then the name |
| `Paths.JoinRootedAll` | pkg/driver/controller.go:354-358 | For every name, plain or not, the joined path has the normalised components of both |
| `Paths.JoinTwoAll` | pkg/driver/node.go:89-94 | The same for the path of a volume context |
| `Paths.CleanKeepsRoot` | pkg/driver/node.go:89-94 | Cleaning makes a path neither absolute nor relative |
| `Paths.StaysPrefixExactly` | pkg/driver/controller.go:975-981 | For every base path and plain name: the base path is a prefix of the joined directory exactly when its components are plain, the last one empty or plain, or dots the name happens to begin with |
| `AccessPoints.SameTokenSameVolume` | pkg/driver/controller.go:184-425 | Idempotence as the CreateVolume section of the CSI specification asks for it: two successful calls for one file system and client token return the same volume ID, whatever other calls run in between, unless its access point was deleted |
| `AccessPoints.CreateKeeps` | pkg/driver/controller.go:184-425 | A call adds at most one access point and changes none, tokens stay unique, and a success names the access point that has the token |
| `AccessPoints.AddsExactly` | pkg/driver/controller.go:290-400 | A call adds an access point exactly if nothing has the token, every call up to the creation works and the path is short enough, and that one: file system and token of the request, directory below the base path, the group and the user asked for or else the allocated ID |
| `AccessPoints.AnswersExactly` | pkg/driver/controller.go:290-427 | What a call answers, as text, in every case |
| `AccessPoints.FindByToken` | pkg/cloud/cloud.go:268-303 | The search finds an access point of the file system with the token if there is one |
| `AccessPoints.RetryExactly` | pkg/driver/controller.go:367-384 | A repeated request whose calls work succeeds, with the same volume, exactly when the check accepts the existing access point |
| `AccessPoints.RefusedForever` | pkg/driver/controller.go:380-383 | A refused access point makes every retry of the request fail, whatever its calls do |
| `AccessPoints.OwnAccessPointAcceptedExactly` | pkg/driver/controller.go:975-997 | For every base path, the check accepts what the request itself made, with a plain directory name, exactly when the base path stays a prefix and explicit IDs lie in the GID range |
| `AccessPoints.AllocatedRequestRepeatsExactly` | pkg/driver/controller.go:320-384 | A request with allocated IDs and a plain name, once it has made its access point, gets the same volume from every later call that works if its base path stays a prefix, and is refused by all of them if not |
| `AccessPoints.GidRange` | pkg/driver/controller.go:247-280 | A range is in force exactly when both bounds or none are given, and it is positive and not empty |
| `AccessPoints.Provisioner.FindAccessPointByClientToken` | pkg/cloud/cloud.go:268-303 | The search loop is the search |
| `AccessPoints.Provisioner.ListAccessPoints` | pkg/cloud/cloud.go:306-343 | The list shows exactly the GIDs of the file system's access points that have a POSIX user |
| `AccessPoints.Provisioner.ProvisionAccessPoint` | pkg/driver/controller.go:210-396 | Allocation, path check, creation and fallback are the provisioning step, and an allocated GID is in the range and not in use |
| `AccessPoints.Provisioner.CreateVolume` | pkg/driver/controller.go:184-425 | The request is the create step |
| `DeleteVolume.AtMostOneMount` | pkg/driver/controller.go:657-759 | In every run of deletions and retries the file system is mounted at most once at the temporary path, and only on an existing directory |
| `DeleteVolume.DeletionExactly` | pkg/driver/controller.go:655-773 | For every state and outcome: when a deletion reports success, when the access point goes and when the data goes; without root-directory removal only the access point is touched |
| `DeleteVolume.LeftDirectoryExactly` | pkg/driver/controller.go:700-760 | When the temporary directory is left behind |
| `DeleteVolume.LeftMountedExactly` | pkg/driver/controller.go:670-692 | A mount is left behind exactly when the deferred cleanup finds one and cannot check or cannot unmount |
| `DeleteVolume.NothingLeftBehind` | pkg/driver/controller.go:670-759 | If the cleanup's check, unmount and removal succeed, neither mount nor directory is left, whatever failed before |
| `DeleteVolume.DataLeftExactly` | pkg/driver/controller.go:740-747 | A deletion that reports success leaves the data exactly when the directory could not be seen or removed |
| `DeleteVolume.DataLeftForever` | pkg/driver/controller.go:694-706 | Once the access point is gone no retry removes what was left |
| `DeleteVolume.FailedRemovalReportsSuccess` | pkg/driver/controller.go:740-747 | A failed removal with everything else working reports success and deletes the access point |
| `DeleteVolume.Host.Cleanup` | pkg/driver/controller.go:670-692 | The deferred function removes the directory only when nothing is mounted on it |
| `DeleteVolume.Host.RemoveRootDirectory` | pkg/driver/controller.go:724-759 | The removal mounts only when not mounted, deletes the data only through the mount and the directory only without it |
| `DeleteVolume.Host.Delete` | pkg/driver/controller.go:614-774 | The request, on every exit path, is the deletion step |
| `SubPath.KeysPrefixFree` | pkg/driver/controller.go:86-92 | No template key is a prefix of another |
| `SubPath.OrderIrrelevant` | pkg/driver/controller.go:921-943 | Every iteration order of the component map gives the same result |
| `SubPath.ReplaceIsMeaning` | pkg/driver/controller.go:921-923 | Substitution gives a template its meaning, whatever the names contain, as long as the text between the variables spells no key |
| `SubPath.DollarFree` | pkg/driver/controller.go:86-92 | Text without a dollar sign spells no key, whatever follows it |
| `SubPath.AcceptedIsMeaning` | pkg/driver/controller.go:921-932 | A template is accepted exactly when its meaning has no template characters, and then with its meaning |
| `SubPath.VariablesMean` | pkg/driver/controller.go:86-92 | How the three variables are written and what each stands for |
| `SubPath.ListComponents` | pkg/driver/controller.go:934-943 | The substitution list covers every component |
| `SubPath.InterpolateRootDirectoryName` | pkg/driver/controller.go:921-932 | The method, with whatever order it gets, computes that result, and an accepted one has neither "${" nor "}" in it |
| `MountOptions.NoDuplicatesExactly` | pkg/driver/node.go:81-231 | The assembled options repeat one exactly when two keys of the volume context spell the address property |
| `MountOptions.CaseDistinctNoDuplicates` | pkg/driver/node.go:81-231 | Keys distinct up to case never give a duplicate |
| `MountOptions.TlsExactly` | pkg/driver/node.go:148-173 | The options contain tls exactly when encryption in transit is on or the volume ID names an access point |
| `MountOptions.AccessPointExactly` | pkg/driver/node.go:148-231 | An ID that names an access point gives that accesspoint option and no other, an efs-ns volume gives none, and otherwise it is a mount flag |
| `MountOptions.RefusedExactly` | pkg/driver/node.go:86-115 | The context is refused exactly for a bad entry, wherever it comes |
| `MountOptions.ScanMeans` | pkg/driver/node.go:81-115 | Where nothing is set twice the loop computes what the context says as a set of entries |
| `MountOptions.OrderIrrelevant` | pkg/driver/node.go:81-231 | For keys distinct up to case the iteration order of the context does not show in the source, the options or their refusal |
| `MountOptions.HasOption` | pkg/driver/node.go:504-511 | Membership |
| `MountOptions.ReadEntries` | pkg/driver/node.go:86-115 | The switch over the context is the scan |
| `MountOptions.AppendFlags` | pkg/driver/node.go:183-231 | The flags are refused exactly for a conflicting access point or tls, and otherwise added in order without repetition and without awscredsuri |
| `MountOptions.SourceExactly` | pkg/driver/node.go:117-146 | What is mounted: the root for an efs-ns volume whatever the context says, otherwise the path of the volume ID, or that of the context, or the root |
| `MountText.OptionsExactly` | pkg/driver/node.go:80-230 | Every option of a mount and where it comes from, by the text of the request: "ro" for a read-only volume, the switches and the address of the context, the access point of the volume ID, and the lower-cased flags that are not about credentials |
| `MountText.OptionsOrder` | pkg/driver/node.go:96-182 | The driver's own options come first, in their order |
| `MountText.RefusedMount` | pkg/driver/node.go:80-225 | A request is refused exactly for a bad entry of the context, a volume ID that does not parse or a flag that contradicts the volume |
| `MountText.NsSource` | pkg/driver/node.go:120-131 | An efs-ns volume ID, as printed, is mounted at the root |
| `MountText.ApSource` | pkg/driver/node.go:132-146 | Any other at the cleaned path of its ID, or else at the path of the context, or else at the root |
| `MountOptions.AssembleOptions` | pkg/driver/node.go:81-231 | The assembly of source and options is the function the theorems are about, with every refusal |

## Left out

- AWS SDK, Kubernetes client, gRPC and mount calls: they are stores whose calls may fail, with the answers as arguments; pagination, throttling and request encoding are not modelled.
- Metrics, logging, health checks, version, identity, watchdog, reaper, configuration directory and metadata providers: no property beyond their bodies.
- OperationWithTimeout and watcher restarts: scheduling outside the step models; `processNamespaceDeletionAsync` and the reconcile loop are repetitions of the steps that are modelled.
- Orphan discovery, consistency validation and the helpers of the enhanced manager: stubs in the source; the helpers are all-or-nothing calls in `Recovery`.
- security_group.go: API calls and a stub.
- JSON encoding of mappings, SHA-256 client tokens, UUID suffixes: taken as given values; what is serialised is taken to be read back.
- Several controller replicas, other clusters in the same account, and file systems changed by hand: outside the assumptions of `Lifecycle.Possible` and `Threads.Possible`.
- Lifecycle.EveryRunIsSafe: speaks of tracked claims, and of steps that do not interleave. `Threads.AtMostOneFindable` is the part that holds of every interleaving; the cache part holds of the interleavings `ThreadCache.SoundExactly` describes, and `ThreadCalls.CallsAreOperations` relates the two models. Each step reads one time.
- Lifecycle.DeletionReleasesOnlyWhenClean: promises nothing about a deletion ever succeeding, because the delete request removes a claim under a made-up name.
- DriverModel.Driver.AddNamespaceFinalizer: keeps the set of namespaces with the finalizer; the lists behind it are in `Finalizers`, and a namespace that is gone counts as a failed addition or a successful removal.
- LockManager.MutualExclusion: holds of the runs `LockManager.SoundExactly` describes; it is not true of all, as the three races show. The timer's clock is not modelled: a timeout may come at any moment.
- Retry.DefaultOpenedNeverCalledAgain: takes timers to be late by less than 26.59 seconds in all; the overflow of very long durations is not modelled, and the error classifiers are an argument.
- VolStatter.Statter.LaunchRoutine: the random sleep before a job and the disk walk are not modelled.
- VolumeIds.ValidateNamespaceName: case is folded for ASCII letters only.
- MountOptions.AssembleOptions: the mount itself is not modelled.
- AccessPoints.Provisioner.CreateVolume: parameters arrive parsed; tags, capacity, cross-account lookups and the response's volume context are left out, and a listing holds all access points of the file system. A search that comes to an access point without a POSIX user stops the source's process; here such an access point is refused.
- DeleteVolume.Host.Delete: the mount-point check answers truthfully or fails; the lock around it is `LockManager`.
