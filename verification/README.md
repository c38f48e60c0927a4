# rf2vc: a verified model

rf2vc puts a Redfish face on virtual machines: it maps BIOS UUIDs to vCenters, keeps the vCenter
records in step with Kubernetes ConfigMaps, uploads install images, and drives power and CD media
through vSphere. This project models the parts of it that hold state or protocols and proves what
they keep.

`dafny verify dfyconfig.toml` checks everything.

## How it is laid out

| files | subject |
|---|---|
| `Text`, `Records` | ASCII string helpers; the records, mappings and settings |
| `StoreSpec`, `StoredFields`, `Store` | the store's operations as steps; what each leaves in every field; the store as an object over a volume where only rename is atomic |
| `Slugs`, `VcsyncSpec`, `ConfigMapFields` | ConfigMap names and contents; what a Startup reads and writes, field by field |
| `Convergence`, `SteadyStates`, `StayingPut` | what one Startup settles; what repeated ones converge to; exactly which states they leave alone |
| `Vcsync`, `Ownership` | the reconciler against a cluster with outside writers and failing calls; any number of concurrent exports |
| `Upload`, `UploadSuccess` | the single-flight ISO upload for any number of threads: what never happens, and who succeeds |
| `Vm`, `Protocols`, `Media` | a VM as vSphere presents it; InsertMedia and EjectMedia as relations on it, and as code |
| `PoolSpec`, `Pool` | the client pool against the store |
| `Redfish`, `RedfishRoutes`, `DryRun` | printed links; which handler each path reaches; dry-run gates under interleaved edits |
| `Bus`, `TokenCache`, `FolderWalk`, `InventoryPath` | activity ring and polling; token reviews; the folder walk; the folder gate |
| `Api` | the admin API's edits across store, pool and cluster |

Objects of the program are classes whose methods change their fields; what they must do is a
function or relation on values, and the theorems are about that. Concurrency is a step relation
over all interleavings (`Ownership`, `Upload`, `DryRun`) or a method that lets others act between
two calls (`Vcsync.Kube.Interfere`, `TokenCache.Reviewer.Interfere`, `Pool.StoreEdits`, `Vm.Machine.Tick`). Failing
calls are nondeterministic results, and an error may come after the effect. What must succeed is said for a
world where nothing fails: `Store.Disk.reliable`, `Vcsync.Sync.Quiet`, `Vm.Machine.healthy`, `Pool.Pool.writable`,
`TokenCache.Reviewer.server`, and the `Lucky` threads of `UploadSuccess`.

## What does not hold

The model follows the code. Where the code and what it says of itself differ, the difference is proved:

- A ConfigMap labelled for GitOps can be deleted: deletion trusts the origin on the stored record
  (`Ownership.DeleteIgnoresLabel`; `Ownership.WhenGitOpsIsTouched` says exactly when). Writes never do this.
- InsertMedia switches a VM on that was off when its drive turned out to be locked, because that
  path sets `wasOn` (contract of `Media.Client.InsertMedia`: on if read as on *or* locked). With no shutdown
  pending it can happen exactly when the VM has a drive that is connected or set to connect at start, and
  that is not connected to the wanted file already (`Protocols.InsertCanSwitchOnIff`).
- EjectMedia promises to restore the prior power. With no shutdown pending, a success restores it exactly when
  power was not cut, or the VM was off, or the first reading saw it on (`Protocols.EjectKeepsPower`). So it is lost
  silently when that reading failed, which counts as off, and for a suspended VM (`Protocols.SilentEject`); a
  failure after a cut can lose it too (`Protocols.LosingEject`). Both kinds of run exist exactly for the VMs
  that are not off and have a drive (`Protocols.EjectCanLoseIff`).
- The activity page is to show each event of a channel. Without a cursor the API answers with the newest
  events instead of the first ones, so a burst larger than the limit on a channel found empty is shown only in
  part, though nothing was evicted (`Bus.BurstIsLost`, `Bus.SinceWouldNot`). `Bus.PollingIsExact` says exactly when nothing
  is lost.
- A per-vCenter dry-run flag can be passed by moving the UUID between the gate and the lookup
  (`DryRun.RemapRace`), and in no other way (`DryRun.DryVCenterNeedsRemap`). The global flag cannot be passed.
- The drive page of `Managers/1?system=...` prints action targets that have lost the system
  (`Redfish.SharedManagerLosesSystem`); `Redfish.DrivePageLinks` gives the exact condition.
- Repeated Startups do not always come to rest. They leave a state alone, in every listing and matching order,
  if and only if it is steady (`StayingPut.StaysPutIff`): every ConfigMap that loads is on a record, on the
  one whose id it asks for if that is stored, and each record either is where its ConfigMap must go or
  neither an export nor a load would change it. A first Startup leads there from every admissible
  state (`Convergence.FirstStartup`, `SteadyStates.RestartsConverge`); this is a sufficient start, not a
  necessary one. What can go wrong elsewhere: a ConfigMap asks by id for a record that another one matched by name
  (`Convergence.AmbiguityCreatesVCenters`), or two records share a vanished name (`SteadyStates.GoneNameIsShared`).
- When the state file cannot be written, a deleted vCenter keeps its pooled client and its ConfigMap,
  and repeating the deletion answers not found (`Api.Server.DeleteVCenter`); the ConfigMap brings it
  back exactly when no other record claims it (`Api.LeftoverConfigMapRevives`).
- Export then load is the identity only under a condition (`VcsyncSpec.RenderThenApply`).

## Model

| member | source | states |
|---|---|---|
| `StoreSpec.StepKeepsInv` | internal/store/store.go:273-394 | every accepted edit keeps: keys are ids and normalized UUIDs, every mapping's vCenter exists, datastores are normalized, the ISO folder is set |
| `StoreSpec.RunKeepsInv` | internal/store/store.go:273-525 | the same at every state of every run of edits |
| `StoreSpec.OnlyDeleteLosesPassword` | internal/store/store.go:273-381 | over any run without a deletion of the vCenter, a stored password never becomes empty |
| `StoreSpec.TypedPasswordSurvives` | internal/store/store.go:317-381 | a typed password stays the same through any run, restarts included, until somebody types another or a Secret supplies one |
| `StoreSpec.SecretWins` | internal/store/store.go:334-372 | a Secret's password reaches the very record the ConfigMap was matched with, or the new one when none matched, and is marked as such |
| `StoreSpec.SeedRecordOk` | internal/store/store.go:194-232 | the record seeded from the environment is well formed |
| `StoreSpec.MatchedIsStored` | internal/store/store.go:334-360 | whichever of the unordered candidates is matched is a stored record, and with none the ConfigMap's id is free |
| `StoreSpec.AppliedRecord` | internal/store/store.go:322-381 | loading a ConfigMap changes exactly one record, at a stored or a free id |
| `StoreSpec.UpsertRecordOk` | internal/store/store.go:273-315 | an accepted create or edit yields a well-formed record |
| `StoreSpec.DeleteKeepsInv` | internal/store/store.go:460-473 | deleting a vCenter with its mappings leaves no mapping dangling |
| `StoredFields.EditStores` | internal/store/store.go:273-315 | an accepted create or edit changes one record and leaves in it, field by field, what was typed: a typed password, marked as such, or else the password and source as they were; dry-run and ConfigMap fields of the record before |
| `StoredFields.EditIsAccepted` | internal/store/store.go:273-297 | an edit is accepted exactly with url, user and datacenter, and a password when new or a stored id when not; the error otherwise |
| `StoredFields.MatchIs` | internal/store/store.go:334-360 | the match, spelled out: by id, else by ConfigMap name, else a record of that name without ConfigMap, else none |
| `StoredFields.LoadStores` | internal/store/store.go:317-381 | loading a ConfigMap changes one record: the ConfigMap's fields win, the Secret's password wins, and of the record before only password and dry-run flag can stay, a Secret's password then counting as typed |
| `StoredFields.LoadIsAccepted` | internal/store/store.go:325-327 | a ConfigMap is accepted exactly with a url and a datacenter |
| `StoredFields.NoteStores` | internal/store/store.go:384-394 | a note changes the three ConfigMap fields of one record and nothing else |
| `StoredFields.MappingIsFound` | internal/store/store.go:499-514 | after a mapping is stored, its UUID finds it under every spelling, any case and any space around it, and every other UUID finds what it found before |
| `StoredFields.MappingIsGone` | internal/store/store.go:516-525 | after a mapping is deleted, its UUID finds nothing under any spelling, and every other UUID finds what it found before |
| `StoredFields.MappingIsAccepted` | internal/store/store.go:499-508 | a mapping is accepted exactly for a UUID that is not blank and a stored vCenter |
| `StoredFields.DryForIff` | internal/store/store.go:444-458 | a UUID is dry exactly by the global flag or by that of the vCenter it is mapped to |
| `StoredFields.DeleteStores` | internal/store/store.go:460-473 | a deletion takes one record and exactly the mappings to it |
| `StoredFields.FlagStores` | internal/store/store.go:404-428 | each dry-run switch changes its one flag |
| `StoredFields.SeedStores` | internal/store/store.go:194-232 | the seeded record, field by field |
| `StoredFields.SeedIsAccepted` | internal/store/store.go:194-207 | seeding happens exactly in a store without records and with url, user, password and datacenter given |
| `Records.SameUuidIff` | internal/store/store.go:171-173 | two spellings are one UUID exactly when they agree up to case and surrounding space |
| `Records.DatastoreIs` | internal/store/store.go:183-192 | the placeholder words in any case mean no datastore; any other name is kept but for surrounding space |
| `Records.RedactedIs` | internal/store/store.go:266-271 | a record is shown without its password and with everything else |
| `Store.LoadOfSnapshot` | internal/store/store.go:100-156 | load(snapshot(s)) = s for every well-formed state and every order in which the maps were enumerated |
| `Store.LoadRepairsVCenters` | internal/store/store.go:122-131 | whatever the file holds, loaded records have a non-empty id as key, a normalized datastore and an ISO folder |
| `Store.LoadRepairsMappings` | internal/store/store.go:132-139 | whatever the file holds, loaded mappings have non-empty normalized UUIDs as keys and name a vCenter id |
| `Store.LoadKeepsLast` | internal/store/store.go:122-131 | whatever the file holds, an id is loaded from its last record, all of it but the two repaired fields |
| `Store.LoadedIsLast` | internal/store/store.go:122-131 | and nothing is loaded that is not such a record |
| `Store.LoadKeepsLastMapping` | internal/store/store.go:132-139 | the same of the mappings |
| `Store.CrashSafe` | internal/store/store.go:100-169 | at every instant of a store's life, writes failing or not, loading state.json gives exactly the state the file is said to hold, one the store had already passed through, and a well-formed one |
| `Store.SurvivingHistoryIsARun` | internal/store/store.go:84-169 | over any number of processes, each cut off at any instant and the next one opening what the file held then, what survives is one run of store operations from the first state: of each life exactly the operations on disk when it was cut off, in order, and all of the last |
| `Store.AcknowledgedSurvives` | internal/store/store.go:158-169 | durability: once an edit has succeeded, the operations up to it are in the surviving history, after all that survived before, however many crashes follow |
| `Store.PasswordOutlivesCrashes` | internal/store/store.go:84-381 | a stored password outlives any number of crashes unless a surviving operation deleted its vCenter |
| `Store.Store.Open` | internal/store/store.go:84-122 | opening reads the state in the file and writes one only when there is none; a corrupt file is always refused, and otherwise only a failing volume can make it fail, be it on the read or on the first write |
| `Store.Store.SeedFromGOVC` | internal/store/store.go:194-232 | exactly one record is added, and only to a store without any and with all four variables set |
| `Store.Store.LoadFrom` | internal/store/store.go:117-141 | the two loops compute LoadDocument |
| `Store.Store.Snapshot` | internal/store/store.go:143-156 | the document holds every record and mapping once, in some order |
| `Store.Store.Persist` | internal/store/store.go:158-169 | temporary file, then rename: success means the file is a snapshot of the current state; every sighting of the file on the way is recorded |
| `Store.Store.Commit` | internal/store/store.go:309-314 | an edit adds its step to the history whether or not the file could be written; on success the file holds that step's state |
| `Store.Store.ListVCenters` | internal/store/store.go:234-242 | every record once, without its password |
| `Store.Store.LookupUUID` | internal/store/store.go:485-497 | the mapping under the normalized UUID, exactly when there is one and its vCenter exists |
| `Store.Store.DryRunForUUID` | internal/store/store.go:444-458 | global flag, or the flag of the vCenter the UUID is mapped to |
| `Store.Store.UpsertVCenter` | internal/store/store.go:273-315 | the new state and result for each outcome, a change kept in memory when the file could not be written included; on success the record has, field by field, what was typed |
| `Store.Store.FindExisting` | internal/store/store.go:334-360 | the searches over the unordered map find a record the matching order allows, or none only when there is none |
| `Store.Store.ApplyConfigVCenter` | internal/store/store.go:322-381 | the merged record, for whichever match the map order gave; on success it carries the ConfigMap's fields, field by field |
| `Store.Store.SetVCenterConfigMap` | internal/store/store.go:384-394 | only the three ConfigMap fields of one record change |
| `Store.Store.SetGlobalDryRun` | internal/store/store.go:404-412 | only the global flag changes |
| `Store.Store.SetVCenterDryRun` | internal/store/store.go:415-428 | only one record's flag changes |
| `Store.Store.DeleteVCenter` | internal/store/store.go:460-473 | the record and exactly the mappings to it are gone |
| `Store.Store.UpsertMapping` | internal/store/store.go:499-514 | the mapping is stored under its normalized UUID; missing fields and unknown vCenters change nothing |
| `Store.Store.DeleteMapping` | internal/store/store.go:516-525 | exactly the normalized UUID's mapping is gone; an unknown one changes nothing |
| `Slugs.Slug` | internal/vcsync/vcsync.go:267-279 | the fallback, or at most 40 characters that may stand in a DNS label |
| `Slugs.SlugKeepsLetters` | internal/vcsync/vcsync.go:267-279 | a slug keeps the name's letters and digits in order: all of them, or as many as 40 characters allow; the fallback is used exactly for names without any |
| `Slugs.SlugIs` | internal/vcsync/vcsync.go:267-279 | the slug of every name: its lower-case letters and digits with one dash for whatever stands between two of them, cut to 40 characters without a dash at the end; the fallback when there are none |
| `Slugs.SlugOfLabel` | internal/vcsync/vcsync.go:267-279 | a name that already is a short label is its own slug |
| `VcsyncSpec.RenderThenApply` | internal/vcsync/vcsync.go:96-158 | loading a record's own export gives the record back if and only if the record has a runtime origin, a Secret reference, and no password that claims to come from a Secret |
| `ConfigMapFields.ReadIs` | internal/vcsync/vcsync.go:96-158 | what is handed to the store for a ConfigMap, field by field, with the Secret's password and user name by their keys and defaults |
| `ConfigMapFields.LoadableIs` | internal/vcsync/vcsync.go:96-116 | a ConfigMap is loaded exactly when its document parses and has a url and a datacenter |
| `ConfigMapFields.StartupCarries` | internal/vcsync/vcsync.go:64-129 | after any Startup, from any well-formed store, a record carries every field of the last ConfigMap loaded into it |
| `ConfigMapFields.StartupLeaves` | internal/vcsync/vcsync.go:64-94 | and a record into which none was loaded keeps all but its ConfigMap note; no other record appears or goes |
| `ConfigMapFields.EachConfigMapIsCarried` | internal/vcsync/vcsync.go:64-129 | from an admissible state each listed ConfigMap ends up on a record that carries its fields |
| `ConfigMapFields.WrittenIs` | internal/vcsync/vcsync.go:281-310 | the ConfigMap written for a record: labels and document, field by field |
| `ConfigMapFields.RefIs` | internal/vcsync/vcsync.go:223-226 | the Secret it refers to: the record's own, or one named like the ConfigMap |
| `ConfigMapFields.NamesAre` | internal/vcsync/vcsync.go:247-250 | the two names made up for a record, which always differ |
| `ConfigMapFields.NameIs` | internal/vcsync/vcsync.go:203-265 | the name an export writes to, in every case |
| `ConfigMapFields.SecondOfTheName` | internal/vcsync/vcsync.go:247-265 | two records of one name get a ConfigMap each, the second one under the longer name |
| `ConfigMapFields.StartupKeepsListed` | internal/vcsync/vcsync.go:64-94 | a Startup from an admissible state changes no listed ConfigMap |
| `ConfigMapFields.EachExportStands` | internal/vcsync/vcsync.go:79-92 | and each record it exports has, at the end, a ConfigMap that says what the record says |
| `Convergence.ApplyKeepsAdmissible` | internal/vcsync/vcsync.go:70-78 | loading one ConfigMap keeps the names on record distinct and live and every ConfigMap either held or waiting |
| `Convergence.ApplySettles` | internal/vcsync/vcsync.go:64-78 | after the first loop every listed ConfigMap is on exactly one record, and the records left over are those without one |
| `Convergence.ExportExhausts` | internal/vcsync/vcsync.go:79-92 | after the second loop every record has a ConfigMap or can get none, and all names on record are distinct and live |
| `Convergence.FirstStartup` | internal/vcsync/vcsync.go:64-94 | a Startup, vanished ConfigMaps included, leaves a state where every listed ConfigMap is on one record and every record has one or can get none; it changes no mapping |
| `SteadyStates.SteadyIsEnough` | internal/vcsync/vcsync.go:64-129 | from a steady state, in whatever order ConfigMaps are listed and records matched, a Startup changes nothing but record fields and the next one nothing at all |
| `SteadyStates.SteadyMeansSettled` | internal/vcsync/vcsync.go:64-129 | with distinct names on record and valid ConfigMaps, steady means exactly: every listed ConfigMap is on a record and asks for no other stored one, and every record adrift can get no ConfigMap |
| `SteadyStates.RestartsConverge` | internal/vcsync/vcsync.go:64-129 | three Startups: the second creates and changes nothing but record fields, the third leaves every store field and the cluster equal |
| `SteadyStates.GoneNameIsShared` | internal/vcsync/vcsync.go:79-92 | why a vanished name must not be one that another record could take: exported first, that record takes it, and the state is not steady |
| `StayingPut.StartupExists` | internal/vcsync/vcsync.go:64-129 | from every well-formed store and for every order of the ConfigMaps there is a Startup, whichever way the matching prefers |
| `StayingPut.StaysPutIff` | internal/vcsync/vcsync.go:64-129 | two Startups change nothing but record fields, and the second nothing at all, in every listing and matching order if and only if the state is steady; for every well-formed store and every cluster, invalid ConfigMaps, shared ids and vanished names included |
| `Convergence.AmbiguityCreatesVCenters` | internal/store/store.go:334-360 | why ids must be unambiguous: one ConfigMap matching a record by name and another asking for it by id make the next load create a new vCenter |
| `Vcsync.Kube.Create` | internal/kube/kube.go:111-117 | create commits only over an absent name |
| `Vcsync.Kube.Update` | internal/kube/kube.go:119-126 | update commits only over the resource version that was read |
| `Vcsync.Kube.Delete` | internal/kube/kube.go:128-134 | delete removes the name, whatever it holds |
| `Vcsync.Sync.PickName` | internal/vcsync/vcsync.go:247-265 | a free name or one holding this vCenter's own runtime export; on a quiet cluster exactly FreeName |
| `Vcsync.Sync.PickTarget` | internal/vcsync/vcsync.go:203-222 | the name to write and the ConfigMap read for it; a ConfigMap not labelled runtime is left alone |
| `Vcsync.Sync.WriteConfigMap` | internal/vcsync/vcsync.go:223-238 | whatever outsiders did since the read, a committed write replaces nothing or a runtime-labelled ConfigMap |
| `Vcsync.Sync.Export` | internal/vcsync/vcsync.go:202-245 | at most one write, an owned one; the store notes at most this record's ConfigMap; on a quiet cluster exactly the export step |
| `Vcsync.Sync.Saved` | internal/vcsync/vcsync.go:173-179 | a GitOps record changes nothing anywhere; any other is exported: under interference at most one owned write, on a quiet cluster exactly the export step |
| `Vcsync.Sync.Deleted` | internal/vcsync/vcsync.go:191-200 | at most the ConfigMap on a runtime record is deleted; on a quiet cluster exactly that |
| `Vcsync.Sync.ReadCredentials` | internal/vcsync/vcsync.go:133-158 | on a quiet cluster the password and user name of the Secret, with the key defaults |
| `Vcsync.Sync.Apply` | internal/vcsync/vcsync.go:96-129 | an invalid ConfigMap changes nothing; a valid one is the one ApplyConfig step |
| `Vcsync.Sync.ApplyAll` | internal/vcsync/vcsync.go:70-78 | the first loop of Startup is a chain of apply steps |
| `Vcsync.Sync.ExportAll` | internal/vcsync/vcsync.go:79-92 | the second loop exports each record that came from no ConfigMap, once |
| `Vcsync.Sync.Startup` | internal/vcsync/vcsync.go:64-94 | on a quiet cluster exactly one Startup of the convergence theorem; under any interference only owned writes, no deletion, and only ConfigMap operations on the store |
| `Ownership.EveryWriteOwned` | internal/vcsync/vcsync.go:202-265 | in every interleaving of any number of exports, deletions and outside writers, each committed write fills an absent name or replaces a ConfigMap labelled runtime at that moment |
| `Ownership.UndisturbedExports` | internal/vcsync/vcsync.go:202-265 | an export that nobody disturbs ends with exactly the rendered ConfigMap written under the name it picks, or with nothing changed when there is none |
| `Ownership.WhenGitOpsIsTouched` | internal/vcsync/vcsync.go:191-245 | the gateway changes or removes a ConfigMap not labelled runtime if and only if it deletes the one on a runtime record |
| `Ownership.DeleteIgnoresLabel` | internal/vcsync/vcsync.go:8-9 | the header's "never deletes" fails: an export relabelled in Git before its vCenter is deleted is deleted |
| `Upload.AlwaysInv` | internal/vsphere/iso.go:322-425 | the invariant of table, calls, serial lock and results in every reachable state, for any number of threads |
| `Upload.SingleFlight` | internal/vsphere/iso.go:332-363 | a path has an entry exactly while one thread leads it, nobody else leads that path, and at most one thread is in the serial section |
| `Upload.NilMeansSeen` | internal/vsphere/iso.go:339-363 | a nil result means the file was seen on the datastore; a follower gets nil exactly when its own leader did |
| `Upload.NoPathPutTwice` | internal/vsphere/iso.go:365-425 | as long as nobody removes files, no path is successfully PUT twice in any run |
| `Upload.SomeThreadCanStep` | internal/vsphere/iso.go:337-363 | no deadlock: while a thread is unfinished, some thread can step without giving up |
| `Upload.StepLowersRank` | internal/vsphere/iso.go:322-425 | each step of a thread lowers a rank no other thread raises |
| `Upload.RunsAreBounded` | internal/vsphere/iso.go:375-425 | a run has at most 19 thread steps for each thread, so every scheduler finishes |
| `UploadSuccess.LeaderSucceeds` | internal/vsphere/iso.go:322-425 | a thread that does the work itself succeeds, whatever happens to others, when its own calls go well; up to three transient answers to its PUTs are overcome |
| `UploadSuccess.EveryoneSucceeds` | internal/vsphere/iso.go:322-425 | when all goes so for the threads of a path, each of them that is done succeeded, leader or follower, and the file is there |
| `UploadSuccess.AtMostOneUploads` | internal/vsphere/iso.go:365-425 | as long as nobody removes files, at most one thread for each path reports an upload, and it was PUT |
| `UploadSuccess.ExactlyOneUploads` | internal/vsphere/iso.go:322-425 | a file missing at the start is PUT, by exactly one of the threads that ask for it; the others are told that it is there |
| `UploadSuccess.PresentIsNotPut` | internal/vsphere/iso.go:323-331 | a file that is there from the start is never PUT |
| `UploadSuccess.CanFinish` | internal/vsphere/iso.go:322-425 | from wherever a run is, there is a way on, with nothing going wrong, to all threads being done |
| `Vm.OneEditChangesBackingIff` | internal/vsphere/client.go:963-965 | the platform rule: one edit changes the backing exactly when the drive was not connected or already had it |
| `Vm.TwoEditsChangeBacking` | internal/vsphere/client.go:714-745 | disconnecting first and then attaching always leaves the new backing, set to connect at start |
| `Vm.CdFirst` | internal/vsphere/client.go:632-647 | the CD-then-disk request starts with the CD when there is a drive, and names exactly the disks there are |
| `Vm.DiskOnly` | internal/vsphere/client.go:628-647 | the disk-only request names exactly the disks |
| `Vm.RequestIs` | internal/vsphere/client.go:632-647 | the request: the drives, then the disks, or the CD alone when there is neither |
| `Vm.DisksInOrder` | internal/vsphere/client.go:632-647 | the disks are requested in the order of the devices |
| `Media.Client.PowerOn` | internal/vsphere/client.go:455-468 | success means on, and on a healthy machine it succeeds; nothing is issued to a machine read as on; backings and start flags are kept |
| `Media.Client.PowerOff` | internal/vsphere/client.go:470-485 | success means off, and on a healthy machine it succeeds; nothing is issued to a machine read as off |
| `Media.Client.SoftPowerOff` | internal/vsphere/client.go:487-519 | success means off; on a healthy machine it gives up only when the guest refused or the deadline passed, and the poll ends |
| `Media.Client.PowerOffForMedia` | internal/vsphere/client.go:756-764 | hard power-off is issued only after the soft way failed; on a healthy machine it succeeds |
| `Media.Client.DisconnectCd` | internal/vsphere/client.go:966-1001 | success leaves the drive disconnected and not start-connected; a healthy machine that is off lets it succeed |
| `Media.Client.AttachCd` | internal/vsphere/client.go:906-961 | from a free drive, success leaves the wanted backing, set to connect at start; on a healthy machine it succeeds exactly when there is a drive or a place for one |
| `Media.Client.DetachCd` | internal/vsphere/client.go:1003-1040 | success leaves the drive free; a lock leaves the devices as they were; a healthy machine that is off lets it succeed |
| `Media.Client.SetBootOrder` | internal/vsphere/client.go:632-647 | success means the requested order for the devices as read |
| `Media.Client.InsertMedia` | internal/vsphere/client.go:661-752 | no-op exactly when the drive was connected to the wanted file, character by character up to case and white space, and then only the recorded image changes; otherwise success leaves the drive backed by the staged file and start-connected, CD-first boot, the image recorded, the VM on if it was read as on or its drive was locked; each call is a run of the InsertRun relation, the no-op included; on a healthy machine it succeeds exactly for an allowed VM, a staged image and a drive or a place for one, with the error named otherwise |
| `Protocols.InsertSwitchesOn` | internal/vsphere/client.go:697-752 | a run in which a VM that was not on ends on, its drive having been locked |
| `Protocols.InsertCanSwitchOnIff` | internal/vsphere/client.go:697-752 | with no shutdown pending, InsertMedia can switch on a VM that was not on if and only if the VM has a drive in use that is not connected to the wanted file already; any run that changes its power took a lock |
| `Protocols.InsertedPower` | internal/vsphere/client.go:697-752 | after a success with no shutdown pending at the start, the VM is on if its drive was locked, and otherwise has the power it had |
| `Protocols.AlreadyHasIff` | internal/vsphere/client.go:690-705 | the no-op test: the first drive is connected and backed by that very file, character by character up to case and white space |
| `Protocols.PathsEqualIff` | internal/vsphere/client.go:781-789 | the path comparison is equality of the characters that are not white space, up to case, of paths that are not blank |
| `Protocols.PlainPathsEqualIff` | internal/vsphere/client.go:781-789 | for paths without white space and upper case it is equality |
| `Protocols.DatastorePathIs` | internal/vsphere/client.go:690-692 | the wanted path names the datastore and the file |
| `Media.Client.EjectMedia` | internal/vsphere/client.go:791-840 | success leaves the drive free, disk-only boot and no recorded image; power is cut only after two lock-type detach failures, hard only after soft failed; with no shutdown pending at the start, only a cut changes the VM's power, and after a success it is back exactly when there was no cut, or the VM was off, or the first reading saw it on; each call is a run of the Ejects relation; on a healthy machine it succeeds |
| `Protocols.EjectKeepsPower` | internal/vsphere/client.go:791-840 | the power facts for every run the steps of EjectMedia allow, about the machine's own power, whether the first reading worked or not |
| `Protocols.LosingEject` | internal/vsphere/client.go:801-829 | a losing run: locked, locked, power cut, the last detach fails; the call fails and the VM stays off |
| `Protocols.SilentEject` | internal/vsphere/client.go:796-840 | a losing run that succeeds: the first reading failed and counts as off, or saw the VM suspended; locked, locked, power cut, everything else done, and the VM stays off |
| `Protocols.EjectCanLoseIff` | internal/vsphere/client.go:791-840 | with no shutdown pending, EjectMedia can fail with another power than it found, and can succeed with another, each if and only if the VM is not off and has a drive |
| `Media.Client.FreeForEject` | internal/vsphere/client.go:801-829 | detach, detach again, power off and detach: power is touched only on the last path, and the caller learns of it |
| `PoolSpec.ForKeepsOk` | internal/vsphere/pool.go:46-63 | every client ever created is in the map under its own id or was closed exactly once |
| `PoolSpec.RunKeepsOk` | internal/vsphere/pool.go:46-81 | the same after any run of For, Invalidate and CloseAll |
| `PoolSpec.ForIsCoherent` | internal/vsphere/pool.go:40-63 | the client handed out has the url, user, password and every other endpoint field of the record asked for |
| `PoolSpec.ForIs` | internal/vsphere/pool.go:25-63 | what For does, field by field: a hit exactly when every endpoint field is the record's; else the old client is closed once and a new one made exactly with a password and a directory; other clients are left alone |
| `PoolSpec.SameClientIff` | internal/vsphere/pool.go:46-63 | asking twice gives the same client if and only if the record has an ISO folder and a normalized datastore |
| `PoolSpec.ClientIsKept` | internal/vsphere/pool.go:46-81 | with no edit of its endpoint and no invalidation in between, a vCenter keeps its client through any run |
| `Pool.SecretIsRecord` | internal/store/store.go:255-264 | in a well-formed store the record handed to the pool is the stored one, and normalized |
| `Pool.Pool.For` | internal/vsphere/pool.go:46-63 | the pool's new abstract state is the function For |
| `Pool.Pool.Invalidate` | internal/vsphere/pool.go:65-72 | the client of the id is closed once and forgotten, others are left |
| `Pool.Pool.CloseAll` | internal/vsphere/pool.go:74-81 | every client is closed, each once |
| `Pool.Pool.ClientForUUID` | internal/vsphere/pool.go:84-98 | with the store edited between the three locked steps: a client returned has every endpoint field of the record as it was read, for the vCenter the UUID was mapped to at the earlier lookup; without one, that vCenter has no pooled client left, and if the cache directory can be made its password is empty |
| `Redfish.EveryLinkReaches` | internal/redfish/server.go:242-468 | every link and action target printed for an id of the 8-4-4-4-12 form is dispatched, under its method, to the handler for that id |
| `Redfish.EverySharedLinkReaches` | internal/redfish/server.go:211-468 | so is every link of the service root, the two collections and the shared manager, member links for UUIDs of that form included |
| `Redfish.BareDispatchesAsFull` | internal/redfish/server.go:139-159 | the bare-UUID form of any path dispatches as its Systems form, for every tail, method and query |
| `RedfishRoutes.SystemRoutes` | internal/redfish/server.go:75-109 | every method on every path of a system, with or without the final slash, reaches the handler of the table, and what the table does not list reaches none |
| `RedfishRoutes.ManagerRoutes` | internal/redfish/server.go:111-136 | the same of the managers, of a system or the shared one, which takes the system from the query without surrounding space |
| `RedfishRoutes.TopRoutes` | internal/redfish/server.go:75-136 | the service root and the two collections answer Get and nothing else |
| `RedfishRoutes.RewrittenIff` | internal/redfish/server.go:139-159 | a path is taken for the bare form exactly when its first segment is a UUID |
| `RedfishRoutes.UuidIff` | internal/redfish/server.go:161-179 | a UUID is 8, 4, 4, 4 and 12 hex digits of either case with dashes between them |
| `Redfish.DrivePageLinks` | internal/redfish/server.go:481-516 | the links of a drive page, however it was addressed, reach the drive's system if and only if the page's path itself named the system |
| `Redfish.SharedManagerLosesSystem` | internal/redfish/server.go:191-202 | Managers/1 with ?system= shows a drive whose action targets reach no system |
| `DryRun.DryRunDrains` | internal/redfish/server.go:302-382 | while global dry-run stays on, every call to vSphere is made by a handler that was past its gate or at work when the run began |
| `DryRun.NothingIsSentInDryRun` | internal/redfish/server.go:302-577 | with no handler past its gate or still at work, global dry-run lets no call through in any run of requests and edits |
| `DryRun.NothingIsSentFor` | internal/redfish/server.go:302-577 | the same for one UUID: while it is dry in every world, by either flag, no call is made for it unless a handler for it was in flight before |
| `DryRun.HandlerStepIs` | internal/redfish/server.go:518-577 | the gate lets a request pass exactly when its UUID is not dry; the lookup finds the vCenter exactly when the UUID is mapped to a stored one |
| `DryRun.RequestGoesThrough` | internal/redfish/server.go:302-577 | a request for a UUID that is mapped and not dry can go all the way to a call |
| `DryRun.WantedIs` | internal/redfish/server.go:302-382 | what each request asks for, in whatever case it is written |
| `DryRun.EveryActionIsExplained` | internal/api/api.go:504-540 | every call, the first of an action or a later one, was let through by a reading of the flag as off, then a lookup, then a record read, in that order |
| `DryRun.DryVCenterNeedsRemap` | internal/redfish/server.go:518-577 | an action reaches a vCenter that was dry throughout only if an edit moved the UUID to it between the reading of the flag and the lookup |
| `DryRun.RemapRace` | internal/redfish/server.go:537-547 | and such an edit always suffices |
| `Bus.Bus.constructor` | internal/activity/bus.go:47-52 | an empty ring of at least four slots |
| `Bus.Bus.Emit` | internal/activity/bus.go:55-79 | the in-place shift keeps the ring equal to the last min(n, cap) events of the log, with the next id |
| `Bus.Bus.Since` | internal/activity/bus.go:91-111 | the first events of the channel past the id that the ring still has, at most the effective limit |
| `Bus.Bus.Snapshot` | internal/activity/bus.go:114-134 | the newest events of the channel that the ring still has, at most the limit or 200 |
| `Bus.SinceIs` | internal/activity/bus.go:91-111 | the answer is the first events past the id, as many as the limit; a limit that makes no sense is none |
| `Bus.SnapshotIs` | internal/activity/bus.go:114-134 | the answer is the last events, as many as the limit, or 200 |
| `Bus.PickSound` | internal/activity/bus.go:99-109 | an event is picked exactly when it is of the channel and in the range of ids |
| `Bus.FirstIsAllUpTo` | internal/activity/bus.go:97-110 | a truncated answer is the whole channel up to its last id |
| `Bus.Bus.Activity` | internal/api/api.go:116-132 | the API's answer: Since for a positive cursor, Snapshot without one |
| `Bus.ReloadIsExact` | web/static/app.js:226-246 | a full reload shows its channel without a gap from the first event shown |
| `Bus.PollingIsExact` | web/static/app.js:226-246 | a client that polls and reloads with any limits shows each event of its channel, from its start or the first event of the last reload up to its cursor, exactly once and in order if and only if since that reload no poll that answered something came after an event past its cursor had been evicted, or was sent without a cursor and could not hold all the ring still had |
| `Bus.BurstIsLost` | internal/api/api.go:122-126 | the second loss happens: more events than the limit on a channel found empty; the first poll loses all but the newest though nothing was evicted |
| `Bus.SinceWouldNot` | internal/api/api.go:122-126 | with nothing evicted, the same poll answered by Since would lose nothing |
| `TokenCache.Reviewer.Review` | internal/kubeauth/kubeauth.go:105-138 | a user is returned only if the API server named that user and allowed the token later than now - ttl, under any interference; a hit sends nothing, a miss asks, and only an allowed review is stored; with a server in good order a miss succeeds exactly for a known, named and permitted token, with the error named otherwise |
| `TokenCache.Reviewer.WhoAmI` | internal/kubeauth/kubeauth.go:140-164 | a user only if one was named since the call, after at most two requests; with a server in good order exactly its user, from v1 or else from v1beta1, with the error named otherwise |
| `TokenCache.Reviewer.MayPass` | internal/kubeauth/kubeauth.go:166-185 | allowed only if the API server said so since the call; with a server in good order exactly what it says |
| `TokenCache.Reviewer.Fill` | internal/kubeauth/kubeauth.go:127-136 | the cache becomes the swept cache with the new entry, and still holds only vouched entries |
| `TokenCache.StoredOk` | internal/kubeauth/kubeauth.go:127-136 | storing keeps every entry vouched for since its expiry less the ttl: failures and denials are never cached |
| `TokenCache.SweepIsInvisible` | internal/kubeauth/kubeauth.go:128-134 | the sweep runs above 1024 entries, removes only expired ones, and no later lookup can tell |
| `FolderWalk.CollectVms` | internal/vsphere/folder_vms.go:167-195 | the walk computes Found on every graph, cyclic ones included |
| `FolderWalk.SucceedsIff` | internal/vsphere/folder_vms.go:167-178 | it succeeds if and only if no folder is reachable below depth 32 and every reachable one can be listed |
| `FolderWalk.CyclesFail` | internal/vsphere/folder_vms.go:168-170 | a reachable cycle makes it fail |
| `FolderWalk.FoundIsPreOrder` | internal/vsphere/folder_vms.go:175-194 | a success is the pre-order listing of all VMs below the root: positions in lexicographic order, none missing |
| `FolderWalk.ListingIsUnique` | internal/vsphere/folder_vms.go:167-195 | there is only one such listing |
| `InventoryPath.NormalizeInventoryPath` | internal/vsphere/client.go:378-385 | the collapse loop ends, in the common form |
| `InventoryPath.NormalIsClean` | internal/vsphere/client.go:377-385 | no backslash, no double slash, no slash at the end, no upper case, for every string |
| `InventoryPath.InsideIff` | internal/vsphere/client.go:411-416 | equal or prefixed with a slash means exactly: the folder's segments begin the path's segments |
| `InventoryPath.InsideIsBelow` | internal/vsphere/client.go:377-416 | on the raw strings: both rooted or both not, and the folder's parts come first, a part being what stands between slashes of either kind, in lower case |
| `InventoryPath.CheckFolder` | internal/vsphere/client.go:387-425 | accepted exactly without a folder, when the path may not be read, or when the segments are a prefix; the path found is remembered |
| `Api.Server.Synced` | internal/api/api.go:39-51 | a GitOps record changes nothing in the cluster; else at most one owned write, and on a quiet cluster exactly the export step; the record as it then is |
| `Api.Server.EditVCenter` | internal/api/api.go:205-218 | store, then pool, then cluster: what each outcome leaves in all three, on a quiet cluster exactly the exported ConfigMap, and pooled clients stay in step unless the state file could not be written |
| `Api.Server.DeleteVCenter` | internal/api/api.go:219-238 | a GitOps vCenter is refused with nothing changed; otherwise record, mappings, client and runtime ConfigMap go in that order; a failed file write leaves the last two |
| `Api.LeftoverConfigMapRevives` | internal/api/api.go:228-238 | a ConfigMap left behind by a deletion brings the vCenter back under its id, without typed password and mappings, if and only if no other record holds that ConfigMap and none of the same name is without one |

## Left out

- HTTP servers, the Kubernetes REST transport, SOAP calls, TLS and downloads: calls that may fail in any way.
- JSON and YAML encoding: state and specs are values; a document that does not parse is its own case, and the omitted `dryRun` is kept.
- Annotations and the password-state text of a rendered ConfigMap: nothing reads them back.
- SHA-256 and random ids: the token key is an injective constructor, new ids are fresh and differ from listed spec ids.
- Unicode case folding and white space: strings are compared as ASCII.
- Client Reset, MediaStatus and the answers to VM questions: single calls without a protocol; a question's answer is a step in which only time passes.
- The finding of VMs by cache, search index and folder candidates, and the UUID filter of the folder scan: a lookup that may fail.
- Health probes, connection tests, ISO cache status, settings and status pages, authentication middleware, configuration, the web pages apart from their polling: only easy branch facts.
- Concurrent writers of one partial download and interleaved Emit calls: emits are taken one at a time.
- Outside writers during Startup: what it does under them is proved only as far as ownership and the store go; the convergence results take a cluster that nobody else changes.
- Upload.RunsAreBounded: the retry pauses and the sizes reported with a file are not modelled; the uploadMu sections are single steps.
- DryRun.DryVCenterNeedsRemap: a vCenter is its id; two records with the same URL are different vCenters.
- TokenCache.Reviewer.Review: staleness is counted from the moment the call reads the clock, not from the moment its caller uses the answer.
- Api.Server.EditVCenter: handlers run one at a time here; only the cluster's outsiders interleave with them.
- Media.Client.EjectMedia: with a guest shutdown already pending at the start, nothing is promised of the power after a failure; the Ejects relation still holds.
- Overlapping requests of the activity page, and ids starting over when the gateway restarts: requests are taken one after the other, on one log.
