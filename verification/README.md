# Casper, modelled and verified

This project is a Dafny model of four parts of Casper, with proofs about them:

- **peer backup**: an owner's daemon archives, encrypts, chunks and signs a folder; `casper_service` moves
  the chunks; a peer's daemon decides every write against a grant, a quota and a signed manifest; a later restore
  checks everything again;
- **mirroring**: what each Mac is told to mirror and to hold, how Syncthing's configuration is driven there, which
  changes count as protected, what is staged for a catcher, and what is cleaned up when;
- **the trust store**: friendships, offerings, access requests, grants and invites;
- **tool calls**: the turn that pauses for approvals, and the policy that allows, asks or denies.

Code that changes state step by step is a class or a method with loops, proved against a specification function;
the theorems are about those functions, over every input and every run. To verify the project, run
`dafny verify dfyconfig.toml` in this directory.

| file | what it holds |
|---|---|
| `Prelude.dfy` | options, sums, concatenation |
| `Manifests.dfy` | signed manifests, with signatures and hashes as injective symbols |
| `ChunkStream.dfy`, `Archive.dfy`, `ArchiveRoundTrip.dfy` | chunk files, tar entries, and both round trips |
| `PeerStore.dfy`, `PeerAnswers.dfy`, `PeerRuns.dfy` | the peer's store, what exactly it answers and keeps, and what holds over all of its runs |
| `OwnerStore.dfy` | the owner's preparation and restores, over all histories of deliveries |
| `Sending.dfy`, `EndToEnd.dfy`, `Transfer.dfy` | storing and fetching a backup call by call through a busy peer, and the orchestration with failing calls |
| `Wanted.dfy`, `Configured.dfy`, `Reconcile.dfy`, `DesiredState.dfy` | Syncthing's configuration: what is wanted, what that means folder by folder, how it is reached; and the desired state computed for both ends |
| `Protection.dfy`, `Staging.dfy`, `Retention.dfy` | protection status, the staging area, pruning and orphan clean-up |
| `Trust.dfy`, `TrustRuns.dfy`, `TrustEffects.dfy`, `TrustStore.dfy` | the trust tables, their invariant, what each operation does to people's standing, and the transactions |
| `Turn.dfy`, `TurnMeaning.dfy` | the tool-calling turn, and what it makes of each call, reply and decision |
| `Policy.dfy`, `PolicyFacts.dfy` | both policy matchers, and how they compare |

## What is assumed

- SHA-256 is injective, a signature exists only if its key's owner made it (`OwnerStore.NoForgery`), decrypting an
  encrypted stream gives it back, an encrypted stream has a header, so is never empty, and unpacking a packed archive
  gives back its entries (`OwnerStore.Lawful`). Base64 text is represented by what it decodes to.
- Each operation of one store is atomic and reads the clock once. In transfers and restores any call may fail, be
  refused, or lose its answer, and the peer may serve any other request in between.
- Syncthing's need lists are accurate at the moment they are read (`Protection.Accurate`, only where it is named), and
  do not change between the pages of one reading.

## Where the code does not do what its documentation promises

Each of these is proved, with an example and, where a condition exists, the exact condition.

- A folder whose name ends in ".." and holds anything can be backed up but never unpacked
  (`ArchiveRoundTrip.UnpackRebuildsFolder`, `DottedFolderNeverComesBack`).
- A manifest may declare a negative size; deleting such a backup can leave more than the quota
  (`PeerRuns.DeletingCanOvershoot`; `StepKeepsQuota` and `QuotaAlwaysHolds` say exactly when).
- The service lists grants in the order they were made and the daemon takes a grantee's first entry, so somebody
  granted space again after a revocation cannot write, and loses the stored data when the old revocation runs out
  (`TrustRuns.RegrantIsListedAfterRevoked`, `PeerRuns.RegrantedPeerIsLockedOut`; exactly when: `PeerRuns.LockedOutIff`,
  `PurgedDespiteGrantIff`).
- Writing chunk 0 again replaces the manifest but keeps old chunks and the complete marker
  (`PeerRuns.MarkerCanOutliveItsBackup`, `ReplacedManifestIff`).
- A foreign Syncthing device that is also a wanted peer is taken over and later removed
  (`Reconcile.ForeignPeerIsLost`, `ForeignDeviceKeptIff`).
- A directory every mirror still needs counts as a file at risk, and makes staging fail as a whole
  (`Protection.NewFolderCountsAsFile`, `AtRiskAreFilesIff`, `Staging.PassWorksIff`). So does a staged file whose place
  becomes a folder (`Staging.KindChangeBlocksStaging`; exactly when: `Staging.Disk.MaintainStaging`).
- "Unprotected" is computed before staging is refreshed: a file replaced since the last pass can count as protected
  while no device holds it (`Protection.StatusIsHonestIff`, `Staging.StaleStagingHidesAChange`).
- Taking over somebody's invite can leave an untagged grant between people who are no longer friends
  (`TrustRuns.TakeoverCanStrandAGrant`, `TakeoverKeepsFriendsIff`).
- The service skips an empty blacklist; the daemon compiles it into one that matches everything
  (`PolicyFacts.MatchersAgreeIff`, `EmptyBlacklistDisagrees`).

## Model

| member | source | states |
|---|---|---|
| Manifests.VerifyManifest | agent/internal/backup/store.go:81-107 | a manifest is accepted exactly when the key it names is trusted and signed its exact bytes, and a refusal says which part was bad |
| Manifests.AnyKeyMeaning | agent/internal/backup/store.go:90-105 | the loop over trusted keys accepts exactly when the manifest's own key is among them and verifies |
| Manifests.SignThenVerify | agent/internal/backup/store.go:68-107 | a signed manifest verifies to itself exactly when it names its signer's key and that key is trusted |
| ChunkStream.ChunkWriter.Write | agent/internal/backup/owner.go:98-112 | a write appends its bytes to the stream, whatever chunks are cut, and loses none |
| ChunkStream.ChunkWriter.Flush | agent/internal/backup/owner.go:114-125 | flushing cuts exactly the buffered bytes as the next chunk, and nothing when there are none; it fails exactly when the disk refuses that chunk |
| ChunkStream.ChunkWriter.WriteAll | agent/internal/backup/owner.go:91-125 | files, hashes and total depend only on the concatenated bytes, not on how they were written |
| ChunkStream.ChunkingIsUnique | agent/internal/backup/owner.go:98-125 | full chunks but the last, none empty: there is exactly one such cut of a stream, and it is the one made |
| ChunkStream.ChunkReader.Read | agent/internal/backup/owner.go:365-388 | one read yields the next bytes of the stream, moves on, and ends only when all files are read |
| ChunkStream.ChunkReader.Drain | agent/internal/backup/owner.go:358-388 | reading to the end with any buffers terminates and yields all files in order, or fails if one is missing |
| ChunkStream.WriteThenRead | agent/internal/backup/owner.go:91-125 | writing in any pieces and reading in any buffers returns the stream |
| Archive.CleaningCleans | agent/internal/backup/owner.go:411-412 | a cleaned name has no ".", no empty component, and ".." only at the front |
| Archive.AcceptedNameStaysBelow | agent/internal/backup/owner.go:411-432 | a name that passes the first guard lands on its own components below the target, so the second never fires |
| Archive.Disk.ExtractTar | agent/internal/backup/owner.go:400-462 | the unpacking loop makes exactly the disk and outcome of its specification, entry by entry, errors included |
| Archive.ExtractConfined | agent/internal/backup/owner.go:425-456 | once the folder is made, every later entry only adds inside it |
| Archive.UnpackingIsConfined | agent/internal/backup/owner.go:400-462 | any archive whatever changes nothing that exists and creates only one new folder, its parents and its contents |
| Archive.SuccessMeansAllUnpacked | agent/internal/backup/owner.go:400-462 | success means the archive was read to its end, no name escaped and no file was cut short, and every file and directory in it is there with its own content |
| Archive.OthersAreSkipped | agent/internal/backup/owner.go:400-462 | an entry that is neither a file nor a directory is passed over |
| ArchiveRoundTrip.SplitJoined | agent/internal/backup/owner.go:186-189 | a path joined with slashes splits into its components again |
| ArchiveRoundTrip.ArchivedName | agent/internal/backup/owner.go:186-189 | an archived name cleans to its own components and is refused exactly when one before the last ends in ".." |
| ArchiveRoundTrip.PlaceNext | agent/internal/backup/owner.go:425-456 | each walked directory or file extends the rebuilt part of the folder by exactly itself |
| ArchiveRoundTrip.UnpackRebuildsFolder | agent/internal/backup/owner.go:164-209 | unpacking an archived folder succeeds exactly when the place is free and no folder in it ends in "..", and leaves exactly its directories and files |
| ArchiveRoundTrip.DottedFolderNeverComesBack | agent/internal/backup/owner.go:411-415 | an ordinary folder named "a.." with one file cannot be unpacked on any disk |
| PeerStore.Daemon.CurrentGrants | agent/internal/backup/peer.go:19-38 | the cache is used while fresh, else replaced by a fetch and stamped; a failed fetch changes nothing |
| PeerStore.Daemon.UsedBytes | agent/internal/backup/peer.go:56-77 | adding up directory by directory gives the declared sizes of all other backups of the grantee |
| PeerStore.Daemon.WriteVerdict | agent/internal/backup/peer.go:104-118 | no active grant or no room means deny; otherwise the grant's tier |
| PeerStore.Daemon.Authorize | agent/internal/backup/peer.go:90-102 | a verdict from a freshly fetched list, storing nothing |
| PeerStore.Daemon.Decide | agent/internal/backup/peer.go:132-182 | all refusals of a write, in order, before anything is stored |
| PeerStore.Daemon.WriteChunk | agent/internal/backup/peer.go:125-205 | the disk and answer after a write are those of its specification, for every input |
| PeerStore.Daemon.CheckReadable | agent/internal/backup/peer.go:211-224 | readable means a grant that is active or revoked less than the grace period ago |
| PeerStore.Daemon.ManifestOf | agent/internal/backup/peer.go:262-283 | the manifest only of a finished backup that its owner may read |
| PeerStore.Daemon.ChunkOf | agent/internal/backup/peer.go:285-301 | one stored chunk, only to an owner who may read it |
| PeerStore.Daemon.Remove | agent/internal/backup/peer.go:303-315 | deletes one backup and nothing else |
| PeerStore.Daemon.RefreshGrants | agent/internal/backup/peer.go:322-337 | the entry-by-entry purge removes exactly those with some entry past its grace, and reports them |
| PeerAnswers.StoredIffWelcome | agent/internal/backup/peer.go:125-205 | a chunk is stored exactly when the sender's first grant is active and lets it in, the governing manifest lists it, and all declared bytes fit; and then it is there, marked complete if it was the last missing |
| PeerAnswers.UnansweredWrites | agent/internal/backup/peer.go:125-135 | without a valid name or a list nothing is decided and nothing changes |
| PeerAnswers.RefusedBeforeManifest | agent/internal/backup/peer.go:136-163 | which refusal a write without a governing manifest meets |
| PeerAnswers.RefusedUnderManifest | agent/internal/backup/peer.go:165-182 | which refusal, or question, a write under a manifest meets |
| PeerAnswers.VerdictsAre | agent/internal/backup/peer.go:104-118 | a verdict is deny for want of a grant or of room, and otherwise what the grant says, "ask" included |
| PeerAnswers.ReadingIff | agent/internal/backup/peer.go:211-301 | a finished manifest and any stored chunk are handed out exactly to who may read, and reading changes nothing on disk |
| PeerAnswers.DeletingIff | agent/internal/backup/peer.go:303-315 | who may read may delete; that one backup goes and nothing else |
| PeerAnswers.PurgedIff | agent/internal/backup/peer.go:322-337 | a refresh purges exactly the stores with an entry revoked seven days ago or more |
| PeerAnswers.NamesStayInside | agent/internal/backup/store.go:43-46 | accepted names and ids hold no path separator and are bounded |
| PeerRuns.WriteIsJustified | agent/internal/backup/peer.go:125-205 | a chunk is stored only under an active grant, a listed hash, a trusted manifest for this id, and a quota that covers all declared bytes; any other write leaves the disk alone |
| PeerRuns.RepliesAreKnown | agent/internal/backup/peer.go:104-118 | whatever text a grant's tier holds, an answer is allow, ask or deny |
| PeerRuns.WriteTouchesOneBackup | agent/internal/backup/peer.go:183-204 | a write changes no other backup and no other grantee's data |
| PeerRuns.StepKeepsQuota | agent/internal/backup/peer.go:56-77 | whatever sizes manifests declare, a request keeps declared bytes within the quota exactly unless it deletes a backup whose removal leaves more |
| PeerRuns.QuotaAlwaysHolds | agent/internal/backup/peer.go:104-118 | from an empty store, all along every run, a grantee's declared bytes stay within the largest quota any list gave, exactly if no delete overshoots |
| PeerRuns.OvershootIsNegative | agent/internal/backup/peer.go:303-315 | only deleting a negative declared size can overshoot |
| PeerRuns.HonestSizesKeepQuota | agent/internal/backup/owner.go:146-153 | with sizes as real chunks give them, the quota holds in every reachable state |
| PeerRuns.DeletingCanOvershoot | agent/internal/backup/peer.go:303-315 | a run from the empty store that ends over quota after such a delete |
| PeerRuns.DeleteKeepsQuotaIff | agent/internal/backup/peer.go:56-77 | deleting a backup keeps every quota that held exactly when its declared size is not negative |
| PeerRuns.StepKeepsFaithful | agent/internal/backup/peer.go:183-204 | with one manifest per id, every request keeps chunks matching it and the marker truthful |
| PeerRuns.BackupsStayFaithful | agent/internal/backup/peer.go:125-205 | the same in every reachable state, whatever the order, repeats and refusals |
| PeerRuns.ManifestMeansWholeBackup | agent/internal/backup/peer.go:262-301 | once the manifest can be fetched, every chunk it lists can be, and hashes to its entry |
| PeerRuns.ReplacedManifestIff | agent/internal/backup/peer.go:186-203 | after chunk 0 is written again, the directory describes the new manifest exactly when the kept chunks match it and it is not longer than a completed old one |
| PeerRuns.MarkerCanOutliveItsBackup | agent/internal/backup/peer.go:186-203 | a run after which a longer manifest is served as complete and its second chunk is missing |
| PeerRuns.StoredBytesBounded | agent/internal/backup/owner.go:98-125 | real chunk bytes never exceed the declared total of a manifest made from them, and equal it when complete |
| PeerRuns.StoredBytesWithinQuota | agent/internal/backup/peer.go:56-77 | when a grantee's manifests, one per id, were made from real chunks, the chunk bytes stored for them over all their backups fit the quota in every reachable state |
| PeerRuns.CacheWasFetched | agent/internal/backup/peer.go:19-38 | the cached list is one that was fetched at the time the cache records |
| PeerRuns.WriteReliedOnFreshGrant | agent/internal/backup/peer.go:132-139 | every stored write relied on a list fetched less than 60 seconds before, with an active grant for its sender |
| PeerRuns.DataLossIsAuthorized | agent/internal/backup/peer.go:303-337 | a backup disappears only by its owner's own delete or an expired revocation; with one entry per grantee never while still readable |
| PeerRuns.SeesActiveIff | agent/internal/backup/peer.go:40-47 | an active grant in the list is the one found exactly when no revoked one of the same grantee comes first |
| PeerRuns.LockedOutIff | agent/internal/backup/peer.go:136-139 | whoever holds an active grant is told there is no space, on every write, exactly when a revoked one of theirs is listed first |
| PeerRuns.PurgedDespiteGrantIff | agent/internal/backup/peer.go:322-337 | a refresh deletes what the holder of an active grant stored exactly when some grant of theirs was revoked longer ago than the grace |
| PeerRuns.RegrantedPeerIsLockedOut | agent/internal/backup/peer.go:40-47 | on the list sent after a regrant, every write is refused, and all data goes when the old revocation runs out |
| PeerRuns.RefreshTakesReadableDataIff | agent/internal/backup/peer.go:322-337 | a refresh deletes readable data exactly when the first entry is good and a later one has run out |
| OwnerStore.Daemon.Prepare | agent/internal/backup/owner.go:52-88 | an id is taken exactly when it is valid, within the size limit and not already being prepared |
| OwnerStore.Daemon.EncryptToChunks | agent/internal/backup/owner.go:127-159 | success stages the encrypted folder chunk by chunk under a manifest signed for exactly that stream |
| OwnerStore.Daemon.FinishJob | agent/internal/backup/owner.go:76-86 | a finished job's manifest and staged files describe one encrypted folder, and the signature is on record; a failed one leaves no staging |
| OwnerStore.Daemon.PrepareStatus | agent/internal/backup/owner.go:213-231 | what is reported ready is a manifest this identity signed for that id |
| OwnerStore.Daemon.ReadChunk | agent/internal/backup/owner.go:234-243 | while an id's only job is ready, reading its indexes gives exactly the chunks of the stream its manifest describes |
| OwnerStore.Daemon.Cleanup | agent/internal/backup/owner.go:246-254 | forgets one id's job and staging, and nothing else |
| OwnerStore.Daemon.RestoreBegin | agent/internal/backup/owner.go:261-283 | accepts only its own manifest for this id, and wipes any earlier restore of it |
| OwnerStore.Daemon.RestoreChunk | agent/internal/backup/owner.go:299-318 | keeps a chunk only if the stored manifest lists exactly its hash there |
| OwnerStore.BeginsIff | agent/internal/backup/owner.go:261-283 | exactly a manifest this identity signed for this backup begins a restore; a refusal changes nothing and says why |
| OwnerStore.ReceivesIff | agent/internal/backup/owner.go:299-318 | a chunk is kept exactly when it is the one the begun manifest lists there, and no other chunk or restore changes |
| OwnerStore.Daemon.Unpack | agent/internal/backup/owner.go:323-354 | unpacks only what decrypts from the chunks joined in order; on failure the restore stays |
| OwnerStore.RestoresStayGenuine | agent/internal/backup/owner.go:261-318 | over every history of deliveries, whatever a restore holds fits a stream once prepared under that id |
| OwnerStore.RestoredStreamIsGenuine | agent/internal/backup/owner.go:323-354 | a stream that gets decrypted is exactly one this identity prepared under that very id |
| OwnerStore.RestoreGivesTheFolderBack | agent/internal/backup/owner.go:323-354 | whatever peer and relay do, a decrypted restore is one of this identity's own folders, rebuilt exactly unless its place is taken or a name ends in ".." |
| Transfer.Meanwhile | casper_service/backups.py:298-308 | other traffic at the peer keeps this backup's directory and every other backup consistent |
| Transfer.Backup.SendChunk | casper_service/backups.py:298-308 | a sent chunk leaves the peer with one more chunk of the same manifest, or the transfer fails; it is sent when both machines answer and the peer stores it |
| Transfer.Backup.SendAll | casper_service/backups.py:298-308 | all chunks sent means the peer holds the whole signed stream, and the row counts them; all are sent when no call fails and the grant keeps letting the backup in |
| Transfer.Backup.Transfer | casper_service/backups.py:269-316 | under any pattern of failing calls, "complete" means the peer holds a stream the source signed under that id, whole, with manifest and marker, and the row counts its chunks and bytes, at least one of each; and it does complete when the source gets ready in time and no call fails or is refused |
| Transfer.Backup.Push | casper_service/backups.py:172-228 | nothing is stored on deny or ask, the verdict is the peer's own fresh one, complete means stored in full as for a transfer, and a new backup whose source gets ready in time breaks only if some call fails or is refused |
| Transfer.Backup.DecideWrite | casper_service/backups.py:231-250 | acts only on a waiting backup, and once; refusing stores nothing; complete means stored in full, and an approved one completes when the source gets ready in time and no call fails or is refused |
| Transfer.Backup.Delete | casper_service/backups.py:386-402 | a complete backup is marked deleted exactly when the peer confirms that it has removed it |
| Transfer.Backup.TryRestore | casper_service/backups.py:369-383 | success means the manifest the peer answered with verifies under the target's key, and the stream of exactly the chunks it lists was received, decrypted and unpacked; and a stream of the target's own that the peer holds is restored when no call fails and its archive unpacks |
| Transfer.Backup.Restore | casper_service/backups.py:349-366 | nothing changes unless the backup is complete and target and peer are connected; a restored row means what TryRestore's success does, and as signatures cannot be forged, that one of the target's own folders is back exactly; a folder whose place is free does come back when no call fails |
| Transfer.OneStreamPerManifest | agent/internal/backup/store.go:48-58 | a manifest's hashes leave exactly one possible stream |
| Transfer.RestoredIsOwnFolder | casper_service/backups.py:369-383 | what an orchestrated restore unpacked is a folder this identity archived and signed under that id |
| Transfer.Backup.AwaitReady | casper_service/backups.py:282-292 | a transfer waits for its own job, and gets it when the source stays reachable and finishes it before the limit |
| Sending.SentInTurn | casper_service/backups.py:298-308 | a chunk that comes in turn under a grant that lets the backup in is stored |
| Sending.SendingAllCompletes | casper_service/backups.py:298-308 | sending all chunks in turn, through whatever else the peer serves, leaves the whole backup there, marked complete |
| EndToEnd.CompleteBackupCanBeRestored | casper_service/backups.py:369-383 | what a transfer left complete can be fetched call by call, with time passing and other traffic in between, is accepted chunk by chunk, and delivers the stream that was backed up |
| EndToEnd.OwnManifestsAreMade | agent/internal/backup/owner.go:127-160 | a manifest an owner signs lists the hashes and the total of the very chunks it staged, under its own key |
| Wanted.Plan | agent/internal/mirror/manager.go:464-536 | the list-by-list loops build the wanted devices and folders |
| Wanted.WantedDevicesAre | agent/internal/mirror/manager.go:464-471 | wanted are exactly the named peers other than this machine |
| Reconcile.RunStage | agent/internal/mirror/manager.go:547-574 | one loop of calls, in any order, stopping at a failure, passes only through safe configurations |
| Reconcile.Apply | agent/internal/mirror/manager.go:460-576 | without failures the result is the reconciled configuration, which does what is desired folder by folder; at every call each folder names only configured devices |
| Reconcile.ReconciledExactly | agent/internal/mirror/manager.go:547-574 | Casper's folders and devices end up exactly those wanted, and foreign folders as they were |
| Reconcile.ForeignDeviceKeptIff | agent/internal/mirror/manager.go:547-574 | a foreign device survives exactly when it is not a wanted peer; one that is goes when it is no longer wanted |
| Reconcile.ForeignPeerIsLost | agent/internal/mirror/manager.go:547-574 | a device set up by hand is renamed when its owner becomes a peer and gone when they no longer are |
| Reconcile.RetryReachesTheSame | agent/internal/mirror/manager.go:460-576 | a run cut off anywhere and repeated reaches the same configuration, which is then stable |
| Reconcile.ManyRetriesReachTheSame | agent/internal/mirror/manager.go:460-576 | so do any number of cut-off runs |
| Reconcile.CutStaysSafe | agent/internal/mirror/manager.go:547-574 | a cut-off run leaves a configuration that a retry is safe in |
| Wanted.OnlySelfIsDropped | agent/internal/mirror/manager.go:477-517 | a folder keeps all its named devices, in order, but this machine |
| Configured.OwnedIsConfigured | agent/internal/mirror/manager.go:472-511 | an owner's folder and its staging folder are sent, or received while restoring, at their own paths, with exactly the remote devices named |
| Configured.HeldIsConfigured | agent/internal/mirror/manager.go:512-536 | a held folder is kept encrypted under held/, with 30 days of history unless for a catcher, paused exactly above 110% of its quota |
| Configured.WantIsAsDesired | agent/internal/mirror/manager.go:464-536 | every remote peer is a device and every shareable or holdable folder is configured so, and no other folder is |
| Reconcile.ReconciledDoesWhatIsDesired | agent/internal/mirror/manager.go:460-576 | the reconciled configuration does all that, whatever was configured before |
| DesiredState.OwnFolder | casper_service/mirroring.py:240-261 | an owned folder's entry, with every device it names among the peers |
| DesiredState.Compute | casper_service/mirroring.py:223-290 | the owned and held entries of one identity; every named device is a peer, none twice, each under its own name and addresses |
| DesiredState.HeldEntriesAre | casper_service/mirroring.py:263-289 | what a Mac is told to hold is exactly what its live targets say |
| DesiredState.OwnedEntryIs | casper_service/mirroring.py:240-261 | the usual Mac sends from its path, a replacement receives at the restore path, to all live mirrors and to a friend's catcher or else Casper's |
| DesiredState.HeldEntryIs | casper_service/mirroring.py:263-289 | a holder is told whose folder it is, in which role, for the owner's devices in order, within the grant's quota |
| DesiredState.BothEndsAgree | casper_service/mirroring.py:211-290 | an owner's entry names a peer's device in a role exactly when that peer is told to hold the folder in it for the owner's device |
| DesiredState.BothEndsAgreeIff | casper_service/mirroring.py:240-261 | on any tables both ends agree on mirrors, and on a catcher told to hold exactly when no live one comes after it |
| DesiredState.Tables.CreateFolder | casper_service/mirroring.py:321-338 | the loop adds one row per mirror and at most one catcher, for the new folder only |
| DesiredState.NewTargetsAre | casper_service/mirroring.py:321-338 | one target per chosen mirror in order and one for a friend's catcher, each with its grant, owner and host; nothing else changes |
| DesiredState.ChangeKeepsOrder | casper_service/mirroring.py:321-338 | every change of the tables keeps folder ids apart, targets with their folders, and at most one friend's catcher per folder |
| DesiredState.BothEndsAlwaysAgree | casper_service/mirroring.py:223-290 | in every reachable state an owner is told to mirror to, or be caught by, a peer's device exactly when that peer is told to hold the folder in that role |
| DesiredState.RevokingRemovesBothEnds | casper_service/mirroring.py:211-220 | revoking the grant removes both ends at once |
| DesiredState.Union | agent/internal/mirrord/service.go:197-207 | each address of either list, once |
| DesiredState.MergePeers | agent/internal/mirrord/service.go:127-134 | known peers keep place and name, new ones follow in the order and under the name they are first listed with, none twice, and a device's addresses are those of all its listings |
| DesiredState.Merge | agent/internal/mirrord/service.go:101-138 | merging identities keeps all entries, and every device they name is still a peer |
| DesiredState.MergedAre | agent/internal/mirrord/service.go:101-138 | the merged folders are every identity's own with their passwords, less those without one, and all it holds |
| DesiredState.NothingNamedIsDropped | agent/internal/mirror/manager.go:472-517 | after the merge, reconciling leaves out no named mirror, catcher or owner but the Mac itself |
| Protection.Needed | agent/internal/mirror/status.go:44-67 | paging ends, asks pages one, two and so on once each up to the last or the first unanswered, and yields the whole list without deletions, wherever pages break |
| Protection.Shared | agent/internal/mirror/status.go:108-125 | keeps exactly the names on every mirror's list, and fails if one list cannot be had |
| Protection.OwnedStatus | agent/internal/mirror/status.go:105-174 | the counts of local, at-risk and unprotected files, and the oldest of the latter |
| Protection.ListsAre | agent/internal/mirror/status.go:105-196 | which names count as local files, as at risk and as caught |
| Protection.AtRiskAreFilesIff | agent/internal/mirror/status.go:139-146 | at-risk names are exactly the files every mirror needs unless a directory is needed too |
| Protection.NewFolderCountsAsFile | agent/internal/mirror/status.go:139-146 | a new empty folder is counted as a file at risk |
| Protection.NotAtRiskIsMirrored | agent/internal/mirror/status.go:108-146 | a listed file is not at risk exactly when some mirror holds it as it is now |
| Protection.StatusIsHonestIff | agent/internal/mirror/status.go:148-172 | everything not counted as unprotected is held elsewhere exactly when the staged copies that are trusted are current |
| Staging.Disk.Place | agent/internal/mirror/catcher.go:25-41 | one file is staged as it is now, exactly when nothing staged is in its way, and no local content changes |
| Staging.Disk.Sweep | agent/internal/mirror/catcher.go:42-63 | what is unwanted goes, then directories with nothing left in them; markers stay |
| Staging.Disk.MaintainStaging | agent/internal/mirror/catcher.go:19-65 | success, exactly when each name can be staged, means staging holds the at-risk files as they are now and nothing else, and is as the next pass and the status need it |
| Staging.NextPassCanStage | agent/internal/mirror/catcher.go:25-41 | after a successful pass, whatever was edited, created, replaced or removed, any listed file can be staged next as long as no path changed between file and directory |
| Staging.PassWorksIff | agent/internal/mirrord/service.go:159-165 | such a next pass over the at-risk names succeeds exactly when no existing directory is needed by every mirror |
| Staging.KindChangeBlocksStaging | agent/internal/mirror/catcher.go:25-41 | a staged file replaced by a folder of its name blocks that folder's files |
| Staging.HonestAfterPass | agent/internal/mirrord/service.go:159-165 | in the state a successful pass leaves, the status is honest, whatever mirrors and catcher need |
| Staging.StaleStagingHidesAChange | agent/internal/mirrord/service.go:159-165 | a file replaced since then is counted as protected while no device holds it |
| Retention.Versions.PruneFile | agent/internal/mirror/versions.go:46-66 | one file's versions, newest first, lose exactly those the policy does not keep |
| Retention.Versions.Prune | agent/internal/mirror/versions.go:20-68 | what is left is every version up to a week old and the newest per day up to 30 days, and the count is right |
| Retention.KeptVersionsAre | agent/internal/mirror/versions.go:46-66 | a version is kept exactly if it is at most a week old, or at most 30 days and the last of its day |
| Retention.OneVersionADay | agent/internal/mirror/versions.go:46-66 | of each day between a week and 30 days ago exactly one version is left |
| Retention.NewestMeansFirst | agent/internal/mirror/versions.go:47-61 | first seen of its day means newest of its day |
| Retention.PruneTwiceIsPruneOnce | agent/internal/mirror/versions.go:20-68 | pruning at two times leaves what pruning once at the later leaves, even with versions arriving in between |
| Retention.HowOftenDoesNotMatter | agent/internal/mirror/versions.go:20-68 | over any history, the result does not depend on how often pruning ran |
| Retention.PruneIsIdempotent | agent/internal/mirror/versions.go:20-68 | pruning again at once changes nothing |
| Retention.HeldFolders.CleanupOrphans | agent/internal/mirror/catcher.go:138-164 | one pass, in any order of folders, marks, unmarks and deletes each by the same rule, and reports the deleted |
| Retention.PassDoes | agent/internal/mirror/catcher.go:138-164 | what a pass does to a wanted, a newly unwanted, an expired and a foreign folder |
| Retention.MarkerTellsTheTruth | agent/internal/mirror/catcher.go:138-164 | a marker's time is that of a pass since which its folder was never wanted |
| Retention.DeletedOnlyAfterGrace | agent/internal/mirror/catcher.go:138-164 | a deleted folder was unwanted at every pass over at least the grace period; a wanted one stays |
| Retention.UnwantedIsDeletedInTheEnd | agent/internal/mirror/catcher.go:138-164 | a folder unwanted that long does get deleted |
| Trust.RevokeRemoves | casper_service/trust.py:126-143 | a bulk revocation removes exactly the current rows it names |
| Trust.FriendsAre | casper_service/trust.py:53-62 | being friends is having a current friend row of any tag |
| TrustStore.Store.DecideFriendRequest | casper_service/trust.py:100-114 | deciding acts once, on a waiting request only |
| TrustStore.Store.RemoveFriend | casper_service/trust.py:117-148 | afterwards neither is a friend, grantee or group member of the other, every other row stays, and exactly the grants between the two are reported; somebody who is no friend changes nothing |
| TrustStore.Store.DecideAccessRequest | casper_service/trust.py:273-301 | grants only to somebody who is still a friend |
| TrustStore.Store.RedeemInvite | casper_service/trust.py:508-543 | takes an invite over whole, or leaves the tables as they were, an already granted taker included |
| TrustStore.Store.Released | casper_service/trust.py:546-558 | the row-by-row release equals one sweep of the invite's rows |
| TrustStore.Store.CompleteInvites | casper_service/trust.py:561-564 | marks every invite of the user and changes nothing else |
| TrustEffects.GrantsAre | casper_service/trust.py:326-341 | holding a grant is having a current grant row |
| TrustEffects.RemovingParts | casper_service/trust.py:117-148 | removing works exactly on a friend; nothing joins the two any more and every other current row stays |
| TrustEffects.AskingAFriend | casper_service/trust.py:77-97 | a request is made exactly to somebody else who is no friend and has none waiting |
| TrustEffects.DecidingMakesFriends | casper_service/trust.py:100-114 | a waiting request is answered once, and accepting it makes the two friends both ways |
| TrustEffects.AskingForAccess | casper_service/trust.py:243-270 | access is asked for exactly by a friend, within the limit, who has neither the grant nor a waiting request |
| TrustEffects.DecidingGrants | casper_service/trust.py:273-301 | yes to a friend adds exactly the grant asked for; otherwise nobody gains anything |
| TrustEffects.EndingAGrant | casper_service/trust.py:389-407 | either side, and nobody else, ends a current grant, and only that row goes |
| TrustEffects.FindingAnInvite | casper_service/trust.py:486-505 | which invites still work |
| TrustEffects.ReleasingAnInvite | casper_service/trust.py:546-558 | exactly the rows made for that holder of the invite go |
| TrustEffects.RedeemingAnInvite | casper_service/trust.py:508-543 | exactly a usable invite of somebody else, for a grant not held, is accepted; friendship, grant and membership arrive, and an earlier holder keeps none of it |
| TrustEffects.CompletingInvites | casper_service/trust.py:561-564 | a user's accepted invites stop working and no other invite changes |
| TrustEffects.CancellingAnInvite | casper_service/trust.py:567-573 | only its owner takes an open invite back, and only that one stops working |
| TrustEffects.InvitingWorks | casper_service/trust.py:465-484 | an invite within the offering works until it expires or the offering is withdrawn |
| TrustEffects.OfferingAndWithdrawing | casper_service/trust.py:179-201 | offers are for own paired hosts, and only their owner withdraws them, once |
| TrustRuns.StepKeeps | casper_service/trust.py:77-573 | every operation keeps the invariant, and keeps grants between friends unless it takes an invite over |
| TrustRuns.InvariantAlways | casper_service/trust.py:77-573 | the invariant holds in every reachable state |
| TrustRuns.FriendshipIsMutual | casper_service/trust.py:100-148 | in every reachable state friendship is mutual, row for row and tag for tag |
| TrustRuns.InvitesHaveOneHolder | casper_service/trust.py:508-543 | an invite's current rows concern its one holder and its owner, at most one is a grant, and all grants are within their offering |
| TrustRuns.FinishedInviteKeepsItsHolder | casper_service/trust.py:561-573 | a completed or cancelled invite never changes hands |
| TrustRuns.ReleaseUndoesRedeem | casper_service/trust.py:508-558 | accepting an unused invite and releasing it restores exactly the current rows before |
| TrustRuns.ReleaseKeepsFriendsIff | casper_service/trust.py:546-558 | a release keeps grants between friends exactly when the two are friends otherwise or have no other grant |
| TrustRuns.TakeoverKeepsFriendsIff | casper_service/trust.py:508-543 | so does taking an invite over, under the same condition on its earlier holder |
| TrustRuns.RegrantIsListedAfterRevoked | casper_service/trust.py:326-386 | a run after which the daemon is sent a person's revoked grant before the active one |
| TrustRuns.TakeoverCanStrandAGrant | casper_service/trust.py:508-558 | a run in which taking an invite over leaves a grant between people who are not friends |
| Turn.Machine.DrainPendingCalls | casper_service/conversations.py:504-546 | goes through pending calls and stops only with the waiting call at the front and a snapshot stored |
| Turn.Machine.RunTurn | casper_service/conversations.py:575-635 | however it is interrupted, a turn heads for its straight-line end, and each answered pause brings it nearer |
| Turn.Machine.Resume | casper_service/conversations.py:583-605 | settling the waiting call does what never having paused would do |
| Turn.SnapshotResumesTheSame | casper_service/conversations.py:504-546 | the stored snapshot and the live turn resume to the same states |
| Turn.Converse | casper_service/conversations.py:575-635 | a whole turn with any number of pauses, live or from snapshots, ends in exactly the straight-line state |
| Turn.DrainedOutputs | casper_service/conversations.py:504-546 | one output per call, in order, under the call's id |
| Turn.EveryCallIsAnswered | casper_service/conversations.py:607-635 | each time the model is asked again it gets exactly the outputs of its last calls |
| Turn.ForcedCallIsAnswered | casper_service/conversations.py:115-137 | a turn that starts from an injected call first sends that call and its one output |
| TurnMeaning.EveryCallIsSettled | casper_service/conversations.py:504-635 | every item sent to the model says what the daemon and the user said: a refused call "denied by user", an approved one the answer to the resend, an unasked one the first answer |
| TurnMeaning.ForcedCallIsSettled | casper_service/conversations.py:115-137 | the same for an injected call |
| TurnMeaning.OnlyApprovedCallsAreResent | casper_service/conversations.py:588-602 | the end of a turn does not depend on answers to resends nobody approved, nor on decisions nobody was asked for |
| TurnMeaning.TurnEndsWith | casper_service/conversations.py:607-635 | a turn hears replies up to the first without a call; its text is theirs end to end and its logs hold every command and transfer with its outcome |
| Policy.Handler.Match | agent/internal/commands/policy.go:272-302 | a rule matches when directory, positions and named options all do |
| Policy.Handler.Find | agent/internal/commands/policy.go:251-258 | the first option with the short or the long name |
| Policy.ComposePolicy | agent/internal/commands/policy.go:321-331 | rules laid end to end in the order of their layers' ids |
| Policy.Handler.MatchPolicy | agent/internal/commands/policy.go:341-349 | the first rule of the composed policy that matches |
| Policy.Handler.BuildArgv | agent/internal/commands/policy.go:361-374 | one block of words per option in order, its name and then its value if it has one, and then the extra positions |
| Policy.Handler.RunShellCommand | agent/internal/commands/policy.go:400-480 | executes, only on a verdict that lets it, the very binary and directory that were matched, with every matched option and value spelled out in order and then the other positions; otherwise nothing |
| Policy.Handler.EvalPolicy | agent/internal/commands/policy.go:491-522 | the verdict on a hypothetical call; nothing runs |
| PolicyFacts.OrderDoesNotMatter | agent/internal/commands/policy.go:321-331 | any permutation of layers with distinct ids composes to the same policy |
| PolicyFacts.LowestLayerDecides | agent/internal/commands/policy.go:321-349 | the choice is the first match of the lowest layer that has one, and none when none has |
| PolicyFacts.HigherLayerOnlyFillsGaps | agent/internal/commands/policy.go:321-349 | a layer above all others decides exactly the calls that hit terminal deny |
| PolicyFacts.EvalAgreesWithRun | agent/internal/commands/policy.go:400-522 | evaluating gives the verdict running gives, whatever the approval |
| PolicyFacts.FoundIsFirst | agent/internal/commands/policy.go:251-258 | an option is looked up as the first that goes by the short or the long name; a blank name names nothing |
| PolicyFacts.MatchMeans | agent/internal/commands/policy.go:272-302 | a rule matches exactly when directory, positions and first named options pass whitelist and blacklist, resolved where asked |
| PolicyFacts.VerdictIs | agent/internal/commands/policy.go:321-349 | a verdict is the tier and ids of the first matching rule of the lowest layer that has one, or deny |
| PolicyFacts.RunAnswers | agent/internal/commands/policy.go:400-442 | which call run_shell_command decides, and when it answers something else |
| PolicyFacts.EvalAnswers | agent/internal/commands/policy.go:491-522 | which call eval_policy decides, a binary that is not found under its bare name |
| PolicyFacts.ServiceJoins | casper_service/policy.py:17-41 | the service joins a relative value to the directory and takes any other as it is |
| PolicyFacts.ResendIsDecidedAfresh | agent/internal/commands/policy.go:433-442 | a resent call is decided by the lowest layer that matches it then; an approval never runs what is denied by then |
| PolicyFacts.MatchPolicy | casper_service/policy.py:79-111 | the service's scan also finds the first match of the lowest layer that has one |
| PolicyFacts.PatternsAgreeIff | casper_service/policy.py:17-41 | on one value the matchers agree exactly unless the blacklist is empty and the whitelist lets it through |
| PolicyFacts.DaemonMatchesIff | casper_service/policy.py:51-76 | the daemon matches a rule exactly when the service does and none of its blacklists is empty |
| PolicyFacts.MatchersAgreeIff | casper_service/policy.py:79-111 | both choose the same rule exactly when the service's choice has no empty blacklist |
| PolicyFacts.SameRuleSameVerdict | casper_service/policy.py:79-111 | where both choose the same rule, tier, rule id and layer id are the same |
| PolicyFacts.EmptyBlacklistDisagrees | casper_service/policy.py:17-41 | a rule the service allows and the daemon denies |

## Left out

- Goroutine interleavings inside one store, operating-system failures while the peer writes or deletes, and 64-bit overflow of sizes.
- The file-system encoding of grantee names and backup ids: both are map keys here, after the same validity tests.
- Tar metadata (modes, times), and a tar, age or JSON stream's bytes: an archive is its list of entries.
- `List`, `list_backups`, `status` and all message texts; the lookups of users and hosts by name.
- The relay servers and listen addresses that `Apply` also sets, and Syncthing's own behaviour.
- `OverlayCatcher`, `store_status` and the service's own catcher loop; sizes and the list of up to 50 names in a folder's status.
- Staging: symbolic links, and removals the system refuses; `MkdirAll` of the staging folder itself.
- PolicyFacts.OrderDoesNotMatter: layers with equal ids are left out, because ids are primary keys; the daemon's sort is unstable and the model's is stable.
- PolicyFacts.MatchersAgreeIff: rules with path resolution are left out, because the service only approximates it, as its documentation says.
- Policy patterns that do not compile, and the Seatbelt profile and exit code of an executed command.
- Protection.OwnedStatus: the oldest time is stated for modification times after 1970 only, because the code uses 0 for "none yet".
- The daemon's view of a grant's revocation time comes from the service's list, not from the trust tables of the model, which only record that a row is revoked.
- Friend requests, offerings, invites and cancellations are functions without a class method of their own; group names, codes and their hashes (an invite lookup is an optional id).
- Malformed tool arguments, exceptions in the middle of a turn, search and source aggregates.
- Deletions and consistency facts of the service's other tables, HTTP, Telegram, mail, and the model clients.
