# Verified models of the fleet's reconcilers and hand-over protocols

This project models, in Dafny 4.11, the parts of the repository that change other systems step by
step and promise something about whole runs: the Outline group reconciler, the zero-downtime compose
handoff and its saved state, the scratch tier's demotion and restore, the Garage, certificate,
app-portal and quota appliers of the NAS, and the CVE textfile with its carry-forward. Every outside
system is a small state with an adversary: it answers, fails with or without having done what it was
asked, adds fields of its own, and, where the source has to live with it, changes between two calls.

Each loop of the source is a method with its invariants, proved against a function or a relation; the
theorems are lemmas about those. `dafny verify dfyconfig.toml` checks everything.

| files | source |
|---|---|
| `OutlinePlan`, `OutlineServer`, `OutlineResume`, `OutlineConvergence`, `OutlineSources`, `OutlineSync`, `Pagination` | `nix/docker-compose/outline-group-sync/sync.py` |
| `Docker`, `Handoff`, `LateStop`, `ReloadHistory`, `Fingerprint` | `nix/modules/services/compose-stack/compose-reload.py` |
| `ScratchDisk`, `ScratchMove`, `ScratchFacts`, `ScratchSweep` | `nix/modules/scratch/scratch-overflow.py`, `scratch-restore.py` |
| `Garage`, `GarageSync`, `GarageBuckets` | `ansible/synology/roles/synology_garage/files/apply_garage.py` |
| `Certificate`, `CertificateBind` | `ansible/synology/roles/synology_certificate/files/apply_certificate.py` |
| `CveSummary`, `CveText`, `CveScan`, `CveCarry`, `CveNights` | `nix/modules/security/cve-scan/cve-scan.py` |
| `JsonValues`, `AppPortal` | `ansible/synology/roles/synology_app_portal/files/apply_app_portal.py` |
| `Quota` | `ansible/synology/roles/synology_quotas/files/apply_quotas.py` |
| `Ascii`, `Decimal`, `StringOrder`, `Wrappers` | shared vocabulary |

## What is assumed of the outside

- **Outline** hands out new ids on create, real ids are never strings of this tool's external-id form, a
  created group has no members, and a new group may appear anywhere in the listing while the others
  keep their order. The snapshot is all there is: nobody else edits groups during `apply_plan`.
- **Docker**: the old containers of a handoff run on entry (`plan` gives exactly one per service), and a
  container once seen running and healthy keeps running until this tool stops it. Everything else
  may happen between calls, and every call may fail with any part of its effect done. A command that times out
  has had its effect, or part of it, by the time it returns; `AlwaysServedIff` says what a `docker stop` that does
  not keep to this costs. What is claimed is "running", not "in Traefik's rotation".
- **Scratch**: the kernel gives every change a new ctime, links into cold are canonical (p points to p's own
  place in cold) and the temporary names are not the users'; `ArchiveLosesNothingIff` does without the second.
  Users may edit anything at any time. What is lost is recorded as an accident: a rename over something that is not
  what was copied, or a cold file removed from under a link. Neither occurs when the scratch=cold pairs are
  configured, as `nix/modules/scratch.nix:450` does, and users leave a path alone at the two moments that the code
  cannot see: between the last stamp check and the rename, and by saving a regular file over a link being restored.
- **DSM** may fail any call with or without having done it. The app portal keeps what it is sent and only adds
  fields, at the top of an entry those of a set `adds`, and gives each entry an identity of its own.
- **synoquota** shows a quota rounded to steps of at most a GiB; which such format, it may choose by size. `--get`
  may print nothing, or something that cannot be parsed.
- **Garage** keeps one grant per bucket and key, and a bucket's CORS rules in their order.

## Where the code falls short of what it says

Each with the exact condition under which the code does meet it.

- `restore_one` checks the cold file again before its rename but never the link: a file saved over the link
  while the copy runs is lost (`RestoreLosesReplacedLink`).
- A link left under a temporary name by a crash is restored, and the archive of the real file deleted with it, if no
  scratch=cold pairs are configured (`UnpairedRestoreLosesData`, `UnpairedRestoreLosesNothingIff`).
- A moved archived link gets its data overwritten by an archive of its old name (`MovedLinkIsOverwritten`,
  `ArchiveLosesNothingIff`).
- Source ids with a colon: source `a` takes the groups of source `a:b` for its own (`ColonsMixSources`); one
  source spares another's groups exactly when neither prefix extends the other (`SparesIff`). Authentik's source
  keys (`source["pk"]`, sync.py:243) are UUIDs, so no colon reaches the code as long as that holds
  (`ColonFreeApart`).
- An old container that stops after `_safe_handoff` has looked for it leaves the service with nothing running
  (`LateStopLeavesNothing`, `AlwaysServedIff`).
- A mount that returns to its saved fingerprint after a failed reload leaves a service on a container of the other
  one (`ReturnBreaksSync`, `InSyncAfterSuccess`).
- `content_hash` does not tell a NUL inside a file from the end of that file (`NulCollides`), nor an empty file
  from an empty directory (`FileLikeDirectory`). Trees with NULs are still told apart when one leaf differs, or
  when no size changes (`OneEditToldApart`, `SameSizesToldApart`).
- A failed read of the last textfile counts as an empty one, so a target that fails that night loses its figures
  (`UnreadNightForgets`).
- A reverse-proxy entry without a port never settles when DSM fills one in (`KeyStaysIffPort`), nor an
  access-control entry without what its key is taken from, when DSM adds it (`PlainKeyStaysIff`); two live entries
  under one undeclared key need two runs (`SecondRunFindsNothing`).
- A `--get` that fails without output reads as "no quota": with a quota in force a run then changes it again, or
  reports no change where it should clear it (`SilentGetMisleads`, `SilentGetChangesTwice`; exactly then, by
  `HonestIffNoSilentGet` and `ChangedAgainIff`).
- A quota shown in TB with two decimals is not read back as what was set: 1000 GiB show as 1.07 TB, which is read
  as 997 (`GigabytesReadBack`). A display does for every size exactly when one step of it is at most a GiB
  (`ReadsBackIffFine`).
- Two declared names of one bucket with different CORS rules never settle (`FullRunConforms`).

## Model

| member | source | states |
|---|---|---|
| OutlineSync.IndexUnique | nix/docker-compose/outline-group-sync/sync.py:113-120 | a dictionary comes back exactly when no key is blank (or blanks are left out) and none comes twice, and it finds every row by its key |
| OutlineSync.Grant | nix/docker-compose/outline-group-sync/sync.py:166-168 | one account joins exactly the managed groups its person is in |
| OutlineSync.DesiredMembers | nix/docker-compose/outline-group-sync/sync.py:159-168 | per group, exactly the unsuspended non-guest accounts whose address is an active internal member's |
| OutlineSync.ValidateDirectory | nix/docker-compose/outline-group-sync/sync.py:150-158 | accepted exactly when group keys, group names and non-blank addresses are distinct |
| OutlineSync.FindTarget | nix/docker-compose/outline-group-sync/sync.py:172-184 | adopt by external id, else by name; refused exactly when the two differ or the group belongs to another source |
| OutlineSync.PlanGroup | nix/docker-compose/outline-group-sync/sync.py:171-209 | one group's create or update, then its additions, then its removals, each in order |
| OutlineSync.PlanGroups | nix/docker-compose/outline-group-sync/sync.py:170-209 | all groups in order of key; refused exactly when a group is, or two would share a target |
| OutlineSync.PlanStale | nix/docker-compose/outline-group-sync/sync.py:211-218 | groups under this source's prefix that nothing maps to are emptied, unless an external provider took one |
| OutlineSync.PlanSync | nix/docker-compose/outline-group-sync/sync.py:143-219 | accepts exactly the accepted snapshots and returns exactly their plan |
| OutlineSync.OutlineApi.ApplyPlan | nix/docker-compose/outline-group-sync/sync.py:222-231 | wherever a call fails, with or without effect, the server is where a prefix of the plan leaves it |
| OutlineSync.OutlineApi.ReadMemberships | nix/docker-compose/outline-group-sync/sync.py:257-264 | all memberships that can matter, or nothing when one of them cannot be read |
| OutlineSync.OutlineApi.Reconcile | nix/docker-compose/outline-group-sync/sync.py:234-272 | nothing is written unless every read succeeded and the snapshot was accepted; a membership that cannot be read ends it with the server as it was; a successful apply ends converged |
| OutlineResume.PlanStep | nix/docker-compose/outline-group-sync/sync.py:143-231 | doing the first operation leaves an accepted snapshot whose plan is the rest, a created group now under its real id |
| OutlineConvergence.Resumable | nix/docker-compose/outline-group-sync/sync.py:143-231 | replanning after any k operations gives exactly the remaining ones |
| OutlineConvergence.NothingToDoIffConverged | nix/docker-compose/outline-group-sync/sync.py:170-219 | the plan is empty exactly when Outline mirrors LDAP and stale groups are empty |
| OutlineConvergence.FullRunConverges | nix/docker-compose/outline-group-sync/sync.py:143-231 | a full run ends converged and a second plan is empty |
| OutlineConvergence.UnmappedGroupsSurvive | nix/docker-compose/outline-group-sync/sync.py:211-231 | after any k operations a group nothing maps to still exists, with its members unless it is under this source's prefix |
| OutlineSources.OtherSourcesUntouched | nix/docker-compose/outline-group-sync/sync.py:149-231 | groups of another source keep name and members when neither prefix extends the other |
| OutlineSources.PrefixesApartIff | nix/docker-compose/outline-group-sync/sync.py:149-149 | some external id carries both prefixes exactly when one extends the other |
| OutlineSources.ColonFreeApart | nix/docker-compose/outline-group-sync/sync.py:149-149 | prefixes of different ids without colons never do |
| OutlineSources.SparesIff | nix/docker-compose/outline-group-sync/sync.py:149-231 | every run for one source leaves every group of the other as it was exactly when neither prefix extends the other |
| OutlineSources.ColonsMixSources | nix/docker-compose/outline-group-sync/sync.py:149-218 | source `a` does not spare source `a:b` |
| OutlineConvergence.LookupsGathered | nix/docker-compose/outline-group-sync/sync.py:198-264 | every membership the planner looks up was gathered |
| OutlineConvergence.GatheredSuffices | nix/docker-compose/outline-group-sync/sync.py:257-269 | planning from the gathered memberships is planning from all of them |
| OutlineConvergence.GuardNeverFires | nix/docker-compose/outline-group-sync/sync.py:170-187 | distinct LDAP groups map to distinct Outline groups, so the guard against sharing cannot fire |
| Pagination.TakeBatch | nix/docker-compose/outline-group-sync/sync.py:69-72 | a batch is taken exactly when it repeats no key, its own or an earlier one |
| Pagination.AuthentikList | nix/docker-compose/outline-group-sync/sync.py:55-80 | whatever the server answers, it ends, and returns a list exactly when the pages form one whole list with distinct keys and the declared count |
| Pagination.OutlineList | nix/docker-compose/outline-group-sync/sync.py:88-110 | the same for offsets: a returned list has distinct ids and exactly the declared total |
| Pagination.NothingMissing | nix/docker-compose/outline-group-sync/sync.py:55-110 | a returned list whose rows come from a set of that size is that whole set |
| Pagination.SteadyListsAreReadWhole | nix/docker-compose/outline-group-sync/sync.py:55-110 | both readers return an unchanging list as it is |
| Docker.ComposeService.ScaleUp | nix/modules/services/compose-stack/compose-reload.py:400-402 | starting the new container, failed or not, leaves every container relied on running |
| Docker.ComposeService.Inspect | nix/modules/services/compose-stack/compose-reload.py:220-224 | an answer "running and healthy" is what makes a container one to rely on |
| Docker.ComposeService.Stop | nix/modules/services/compose-stack/compose-reload.py:428-428 | stopping, in whole or part, never leaves the service without a running container; old ones only after the new are proved |
| Docker.ComposeService.Remove | nix/modules/services/compose-stack/compose-reload.py:429-429 | success means the containers are gone, and every container relied on still runs |
| Handoff.PollNew | nix/modules/services/compose-stack/compose-reload.py:412-416 | "all good" means every new container was seen running and healthy in this one poll |
| Handoff.AwaitHealthy | nix/modules/services/compose-stack/compose-reload.py:410-422 | it ends: every new container seen healthy in one poll, or given up with every old container kept |
| Handoff.Drain | nix/modules/services/compose-stack/compose-reload.py:434-463 | it ends, and whatever fails, every container relied on still runs |
| Handoff.Abort | nix/modules/services/compose-stack/compose-reload.py:485-496 | the old containers are left alone, and the new ones are gone when it ends normally |
| Handoff.Handoff | nix/modules/services/compose-stack/compose-reload.py:397-431 | True: as many proved new containers run as there were old ones, and the old are gone; False: all old ones still run; what is proved is what was listed as new |
| Handoff.SafeHandoff | nix/modules/services/compose-stack/compose-reload.py:466-482 | at every moment a container runs, no old one stops before all the new ones are proved, and what is proved was seen healthy in one poll, all of it, whatever fails |
| LateStop.AlwaysServedIff | nix/modules/services/compose-stack/compose-reload.py:91-107 | with a stop that outlives its timeout, a container always runs exactly when it takes effect before the look at the old ones, or never |
| LateStop.LateStopLeavesNothing | nix/modules/services/compose-stack/compose-reload.py:466-496 | the run that ends with none |
| ReloadHistory.Plan | nix/modules/services/compose-stack/compose-reload.py:355-394 | in name order, exactly the labelled eligible services with one running container that changed or were forced and have no pending one-shot |
| ReloadHistory.Machine.HandOffAll | nix/modules/services/compose-stack/compose-reload.py:543-548 | every handoff is attempted until one crashes; which services switched |
| ReloadHistory.Machine.Run | nix/modules/services/compose-stack/compose-reload.py:523-563 | the state one reload leaves, and that it exits 0 exactly when all its parts succeed |
| ReloadHistory.FailureLeavesState | nix/modules/services/compose-stack/compose-reload.py:543-563 | a failed reload leaves the state file alone, and a failed handoff runs neither final `up` |
| ReloadHistory.OnlyCurrentIsStarted | nix/modules/services/compose-stack/compose-reload.py:523-563 | a service is on the container it had or on one of the current fingerprint |
| ReloadHistory.InSyncAfterSuccess | nix/modules/services/compose-stack/compose-reload.py:325-563 | after exit 0, exactly which services are on their just-saved fingerprint |
| ReloadHistory.StepInSync | nix/modules/services/compose-stack/compose-reload.py:325-563 | the invariant one reload keeps, failed or not |
| ReloadHistory.InSyncAfterEverySuccess | nix/modules/services/compose-stack/compose-reload.py:325-563 | over any history, after every exit 0 each saved service runs under its saved fingerprint |
| ReloadHistory.ReturnBreaksSync | nix/modules/services/compose-stack/compose-reload.py:325-563 | a history with a returning fingerprint after which that is false |
| Fingerprint.Sha256.ContentHash | nix/modules/services/compose-stack/compose-reload.py:272-294 | the walk feeds the hash the leaves in sorted order, each as path, NUL, kind and content, NUL |
| Fingerprint.StreamInjective | nix/modules/services/compose-stack/compose-reload.py:281-293 | without NUL bytes, equal streams are equal lists of leaves, and conversely |
| Fingerprint.EqualInputEqualConfig | nix/modules/services/compose-stack/compose-reload.py:272-294 | equal hash inputs of two NUL-free trees: the same leaf, or none, at every path |
| Fingerprint.BodyTells | nix/modules/services/compose-stack/compose-reload.py:287-292 | what is hashed for a leaf gives its kind and content away |
| Fingerprint.FileLikeDirectory | nix/modules/services/compose-stack/compose-reload.py:276-293 | a file and a directory hash alike exactly when both are empty |
| Fingerprint.NulCollides | nix/modules/services/compose-stack/compose-reload.py:286-293 | with a NUL in a file, one file and two files hash alike |
| Fingerprint.SameSizesToldApart | nix/modules/services/compose-stack/compose-reload.py:281-293 | whatever bytes they hold, leaves of the same paths and sizes are told apart |
| Fingerprint.OneEditToldApart | nix/modules/services/compose-stack/compose-reload.py:281-293 | so is one leaf of another kind or content, whatever its size |
| ScratchDisk.EditLosesNothing | nix/modules/scratch/scratch-overflow.py:289-302 | what users do between two steps loses nothing that was not lost before, links being canonical |
| ScratchMove.PublishKeeps | nix/modules/scratch/scratch-overflow.py:350-350 | publishing the cold copy of a path that is no link loses nothing |
| ScratchMove.SwapKeeps | nix/modules/scratch/scratch-overflow.py:389-391 | the swap loses p at most, and only if something other than the cold copy's content was there |
| ScratchMove.ReturnKeeps | nix/modules/scratch/scratch-restore.py:211-211 | the rename loses the link's path at most, and only if something other than the copied content was there |
| ScratchMove.Storage.CopyLocal | nix/modules/scratch/scratch-overflow.py:328-339 | whatever happens during the copy, if the source is still the file that was stat'ed the bytes read are its bytes |
| ScratchMove.Storage.ArchiveOne | nix/modules/scratch/scratch-overflow.py:289-423 | every step keeps every path readable but for recorded accidents; Moved means a link is in place; undisturbed, exactly the archived state |
| ScratchMove.Storage.CheckAndSwap | nix/modules/scratch/scratch-overflow.py:362-402 | the same whatever happens; undisturbed, matching stamps give exactly the swap and any others exactly the removal of the cold copy |
| ScratchMove.Storage.RestoreOne | nix/modules/scratch/scratch-restore.py:99-248 | every step keeps every path readable but for recorded accidents, with and without pairs; undisturbed, exactly the restored state of either mode |
| ScratchMove.Storage.PutBack | nix/modules/scratch/scratch-restore.py:190-248 | the same whatever happens; undisturbed, matching stamps put the file back and any others change nothing |
| ScratchMove.RunJobs | nix/modules/scratch/scratch-overflow.py:519-562 | over any sequence of archives and restores, in every state gone through, each path reads as its user last wrote it but for the recorded accidents, each a real one of a disk gone through; with careful users and pairs there is none |
| ScratchMove.Storage.Reclaim | nix/modules/scratch/scratch-restore.py:222-246 | undisturbed, the cold copy goes exactly if it is still what was restored |
| ScratchFacts.ArchiveThenRestore | nix/modules/scratch/scratch-restore.py:170-248 | restoring an archived file gives back content, mode, mtime and (as root) owner, and removes the cold copy unless kept |
| ScratchFacts.NoPingPong | nix/modules/scratch/scratch-overflow.py:228-286 | `gather_candidates` never takes a link, nor a restored file before the minimum age has passed |
| ScratchFacts.RestoreLosesReplacedLink | nix/modules/scratch/scratch-restore.py:190-212 | the rename loses nothing exactly when the link is still there or the new file has the same content |
| ScratchFacts.SwapLosesLateEdit | nix/modules/scratch/scratch-overflow.py:366-391 | the swap loses nothing exactly when the file is still what was copied |
| ScratchFacts.UnpairedRestoreLosesNothingIff | nix/modules/scratch/scratch-restore.py:127-248 | without pairs, nothing is lost exactly when the link is the archive location's own or no user's link leads there |
| ScratchFacts.UnpairedRestoreLosesData | nix/modules/scratch/scratch-restore.py:133-146 | so a leftover temporary link is enough to lose a file |
| ScratchFacts.ArchiveLosesNothingIff | nix/modules/scratch/scratch-overflow.py:297-391 | wherever links point, archiving p loses nothing exactly when every link to p's cold place stands for p's content |
| ScratchFacts.MovedLinkIsOverwritten | nix/modules/scratch/scratch-overflow.py:297-350 | so a moved archived link's data is overwritten by the next archive of its old name |
| ScratchSweep.GatherCandidates | nix/modules/scratch/scratch-overflow.py:249-286 | every eligible file once, coldest first, bigger first among equals |
| ScratchSweep.Sweep | nix/modules/scratch/scratch-overflow.py:506-562 | the attempts and the bytes of the two passes, real and dry |
| ScratchSweep.PassesSplitTheList | nix/modules/scratch/scratch-overflow.py:284-510 | TTL list and capacity list together are the sorted list |
| ScratchSweep.CapacityPassIsMinimal | nix/modules/scratch/scratch-overflow.py:547-562 | the attempts are a prefix, without the last one too little is freed, and falling short means the list ran out |
| ScratchSweep.CapacityBound | nix/modules/scratch/scratch-overflow.py:540-562 | enough freed: used space below the low-water mark plus one byte; otherwise every candidate was attempted |
| ScratchSweep.DryRunPredicts | nix/modules/scratch/scratch-overflow.py:308-562 | a dry run lists what the real run does, when archives succeed and free what they occupy |
| GarageSync.IndexAliases | ansible/synology/roles/synology_garage/files/apply_garage.py:901-904 | a bucket by its alias, the later one winning |
| GarageSync.IndexKeys | ansible/synology/roles/synology_garage/files/apply_garage.py:924-935 | key ids by name, refused exactly when a name comes twice |
| GarageSync.Box.Check | ansible/synology/roles/synology_garage/files/apply_garage.py:841-969 | a spec is refused exactly when a credential or bucket is missing, a key name comes twice, or a live key has another id |
| GarageSync.Box.PlanGrants | ansible/synology/roles/synology_garage/files/apply_garage.py:978-1012 | the allow and deny calls for every declared pair |
| GarageSync.Box.SyncKeys | ansible/synology/roles/synology_garage/files/apply_garage.py:841-1074 | refused unchanged, or a prefix of imports, env files and grants, the whole of them when it reports changed |
| Garage.OpsForReach | ansible/synology/roles/synology_garage/files/apply_garage.py:1007-1012 | allow and deny together turn the current permissions into the declared ones, and touch no other grant |
| Garage.OpsReach | ansible/synology/roles/synology_garage/files/apply_garage.py:1053-1073 | all planned calls: every declared pair has exactly its permissions, every other grant is as it was |
| Garage.FullIsSynced | ansible/synology/roles/synology_garage/files/apply_garage.py:1028-1074 | a successful run leaves keys, env files and permissions as declared |
| Garage.PartialFramed | ansible/synology/roles/synology_garage/files/apply_garage.py:1028-1073 | cut off anywhere, only what is declared has changed |
| Garage.NothingToDoIffSynced | ansible/synology/roles/synology_garage/files/apply_garage.py:1014-1024 | no-change exactly when everything is as declared |
| Garage.StillSyncable | ansible/synology/roles/synology_garage/files/apply_garage.py:906-969 | cut off anywhere, the next run is not refused |
| Garage.SyncedIsUnique | ansible/synology/roles/synology_garage/files/apply_garage.py:841-1074 | two synced outcomes of one start agree on everything a caller can see |
| GarageSync.RerunReachesSameState | ansible/synology/roles/synology_garage/files/apply_garage.py:1028-1074 | a run cut off anywhere and run again ends where one undisturbed run ends |
| GarageBuckets.ApiRuleIsStable | ansible/synology/roles/synology_garage/files/apply_garage.py:671-724 | translating a rule read back, empty lists shown or not, compares equal to what was sent |
| GarageBuckets.Admin.PlanCors | ansible/synology/roles/synology_garage/files/apply_garage.py:768-791 | which declared buckets need their rules written |
| GarageBuckets.Admin.SyncBuckets | ansible/synology/roles/synology_garage/files/apply_garage.py:731-832 | refused unchanged, or missing buckets created and a prefix of the rules written; no-change only when all conform |
| GarageBuckets.FullRunConforms | ansible/synology/roles/synology_garage/files/apply_garage.py:762-832 | after a successful run every declared bucket conforms exactly when no bucket is asked for two rule sets |
| GarageBuckets.NoConflictStays | ansible/synology/roles/synology_garage/files/apply_garage.py:798-832 | a run cut off anywhere leaves the next one able to converge |
| GarageBuckets.UndeclaredBucketKeepsRules | ansible/synology/roles/synology_garage/files/apply_garage.py:812-831 | a bucket none of whose names is declared keeps its rules |
| GarageBuckets.ConformIffNothingToDo | ansible/synology/roles/synology_garage/files/apply_garage.py:762-794 | nothing to create or write exactly when every declared bucket conforms |
| Certificate.KeeperIsBest | ansible/synology/roles/synology_certificate/files/apply_certificate.py:133-171 | the kept certificate ranks highest: exact names first, then expiry, an unreadable date last |
| Certificate.KeeperOrderFree | ansible/synology/roles/synology_certificate/files/apply_certificate.py:133-171 | with distinct ranks the listing's order does not matter |
| Certificate.IssuesNothingIff | ansible/synology/roles/synology_certificate/files/apply_certificate.py:306-397 | nothing is issued exactly when a good certificate exists, or the best one has life left and cannot be read |
| CertificateBind.Nas.LetsEncryptCreate | ansible/synology/roles/synology_certificate/files/apply_certificate.py:306-414 | issues exactly when needed, and nothing under check or after a failed listing; a failing create may still have issued |
| CertificateBind.Nas.SetDefault | ansible/synology/roles/synology_certificate/files/apply_certificate.py:420-483 | no-change exactly when the keeper is the default; otherwise it, and only it, becomes the default, or nothing changes if the call had no effect |
| CertificateBind.IndexServices | ansible/synology/roles/synology_certificate/files/apply_certificate.py:566-570 | which certificate holds each service |
| CertificateBind.Nas.BindServices | ansible/synology/roles/synology_certificate/files/apply_certificate.py:511-628 | moves exactly the bound services and the reverse-proxy entries the target covers that sit elsewhere, all of them or none |
| CertificateBind.NothingLeftToMove | ansible/synology/roles/synology_certificate/files/apply_certificate.py:561-612 | after the move nothing is left to move, in any listing order |
| CertificateBind.SecondPassIsNoChange | ansible/synology/roles/synology_certificate/files/apply_certificate.py:306-628 | after one pass of the three subcommands a second changes nothing |
| CertificateBind.IssuedIsEnough | ansible/synology/roles/synology_certificate/files/apply_certificate.py:346-414 | a certificate issued as asked ends the need to issue |
| CveSummary.Summarize | nix/modules/security/cve-scan/cve-scan.py:189-204 | every bucket is there and counts its vulnerabilities, each package's once |
| CveSummary.EachFindingOnce | nix/modules/security/cve-scan/cve-scan.py:193-203 | each vulnerability of a package is in exactly one bucket |
| CveSummary.OrderFreeIffAgree | nix/modules/security/cve-scan/cve-scan.py:193-203 | order and repetition of matches do not matter exactly when matches of one vulnerability agree |
| CveText.LabelsRoundTrip | nix/modules/security/cve-scan/cve-scan.py:207-305 | printed labels are found again by the label expression, all of them, in order |
| CveText.SampleMatches | nix/modules/security/cve-scan/cve-scan.py:227-304 | a printed sample line is taken apart into its labels and its number |
| Decimal.ParsePrinted | nix/modules/security/cve-scan/cve-scan.py:227-309 | a printed count is read back as itself |
| CveScan.RenderMetrics | nix/modules/security/cve-scan/cve-scan.py:211-249 | the file: counts, success and time of each target in order, then the database's time |
| CveScan.ParsePrevious | nix/modules/security/cve-scan/cve-scan.py:297-313 | the dictionary the matching lines build up, later lines winning |
| CveScan.SplitTerminated | nix/modules/security/cve-scan/cve-scan.py:249-301 | lines without line breaks come back as they were written |
| CveCarry.RenderedSamples | nix/modules/security/cve-scan/cve-scan.py:211-313 | of a rendered file exactly the counts and the times are read, heads and success lines being ignored |
| CveCarry.RoundTrip | nix/modules/security/cve-scan/cve-scan.py:211-313 | parsing what was rendered gives each target's counts and whole-second time, and no other target |
| CveNights.Textfile.Host | nix/modules/security/cve-scan/cve-scan.py:472-529 | the results of one night, failed targets and an unlistable host with last night's figures |
| CveNights.NightTells | nix/modules/security/cve-scan/cve-scan.py:472-529 | what the new file says of every target: fresh figures, the old ones, or nothing |
| CveNights.LastSuccessStays | nix/modules/security/cve-scan/cve-scan.py:484-513 | however many nights a target then fails, the file says what its last success said |
| CveNights.UnreadNightForgets | nix/modules/security/cve-scan/cve-scan.py:531-537 | a night that could not read the file forgets the targets that fail in it; a failing one is shown as before exactly when the file was read or did not show it |
| JsonValues.CoveredReflexive | ansible/synology/roles/synology_app_portal/files/apply_app_portal.py:104-114 | an entry covers itself |
| JsonValues.CoveredTransitive | ansible/synology/roles/synology_app_portal/files/apply_app_portal.py:104-114 | covering is transitive at any depth |
| JsonValues.CoveredAntisymmetric | ansible/synology/roles/synology_app_portal/files/apply_app_portal.py:104-114 | covering both ways is Python's equality |
| JsonValues.ExtendsCovers | ansible/synology/roles/synology_app_portal/files/apply_app_portal.py:104-127 | what DSM keeps of an entry, with fields of its own, is covered |
| AppPortal.KeyStaysIffPort | ansible/synology/roles/synology_app_portal/files/apply_app_portal.py:93-101 | a frontend's key survives DSM's additions exactly when its port is written out |
| AppPortal.PlainKeyStaysIff | ansible/synology/roles/synology_app_portal/files/apply_app_portal.py:93-101 | a key by id, alias or name survives exactly when DSM cannot fill in anything consulted before it |
| AppPortal.IndexByKey | ansible/synology/roles/synology_app_portal/files/apply_app_portal.py:120-121 | entries by key, the last one winning, keyless ones left out |
| AppPortal.Diff | ansible/synology/roles/synology_app_portal/files/apply_app_portal.py:119-140 | exactly the keys to create, to update and to delete |
| AppPortal.Portal.Sync | ansible/synology/roles/synology_app_portal/files/apply_app_portal.py:117-191 | no-change exactly when nothing differs; if the keys survive, a successful run leaves each key as declared, a failed one each key as it was or as declared |
| AppPortal.SecondRunFindsNothing | ansible/synology/roles/synology_app_portal/files/apply_app_portal.py:117-191 | the next run finds nothing exactly when no undeclared key had two live entries |
| AppPortal.FailureAddsNoTwins | ansible/synology/roles/synology_app_portal/files/apply_app_portal.py:142-189 | a run that failed anywhere leaves the next one able to finish |
| AppPortal.SyncedFrame | ansible/synology/roles/synology_app_portal/files/apply_app_portal.py:125-140 | entries already covered, and those without a key, are not touched |
| Quota.RoundIsNearest | ansible/synology/roles/synology_quotas/files/apply_quotas.py:102-102 | rounding gives the nearest whole number, of two the even one |
| Quota.FineReadsBack | ansible/synology/roles/synology_quotas/files/apply_quotas.py:90-104 | shown in steps of at most a GiB, any number of GiB is read back as itself |
| Quota.ReadsBackIffFine | ansible/synology/roles/synology_quotas/files/apply_quotas.py:65-104 | and only such a display does so for every size |
| Quota.GigabytesReadBack | ansible/synology/roles/synology_quotas/files/apply_quotas.py:69-104 | whole decimal gigabytes are fine enough; 1000 GiB show as 1.07 TB and are read as 997 |
| Quota.Share.Apply | ansible/synology/roles/synology_quotas/files/apply_quotas.py:123-171 | what one run reports and sets, for any reading and any failing command |
| Quota.Share.ApplyAgain | ansible/synology/roles/synology_quotas/files/apply_quotas.py:123-171 | over any number of runs, with reads and writes failing anyhow, the quota and the reports; a second change only after a silent `--get` |
| Quota.ChangedAgainIff | ansible/synology/roles/synology_quotas/files/apply_quotas.py:123-171 | after a change, a later run changes again exactly when its `--get` fails silently, a quota is wanted and setting works |
| Quota.SilentGetChangesTwice | ansible/synology/roles/synology_quotas/files/apply_quotas.py:82-171 | a history that does |
| Quota.TellsTheTruthIff | ansible/synology/roles/synology_quotas/files/apply_quotas.py:82-151 | a readable answer is right about every wish exactly when it is not a silent failure over a set quota |
| Quota.HonestIffNoSilentGet | ansible/synology/roles/synology_quotas/files/apply_quotas.py:123-171 | whatever was set before and whatever setting does, every report is right exactly when no `--get` fails silently |
| Quota.SilentGetMisleads | ansible/synology/roles/synology_quotas/files/apply_quotas.py:82-84 | for any silent failure, the quota that makes that run's report wrong |
| Quota.NoDriftMeansClose | ansible/synology/roles/synology_quotas/files/apply_quotas.py:141-151 | a truthful "no change" is said only of a quota of the right type within a GiB of the wanted size |

## Left out

- HTTP, SSH, subprocess, synowebapi and JSON/YAML transport, argument parsing, logging: calls that succeed or fail. SHA-256 itself: equal inputs stand for equal hashes.
- ScratchMove.Storage.ArchiveOne: inode swaps, planted symlinks, the path-traversal guard, fsync durability and the mirrored directories' owners and modes are left out; links into cold are canonical here, and what happens otherwise is ScratchFacts.ArchiveLosesNothingIff.
- Handoff.SafeHandoff: claims "running", not "in rotation": a failure after the drain file is touched keeps an old container that still carries it. A `docker stop` that takes effect only after its timeout was reported is in LateStop, not here; an exited container restarted by the scale-up is not modelled.
- ReloadHistory.Machine.Run: mounts do not change during a reload; `changed_services`, `build_missing` and `changed_oneshots` are inputs; a migration comes before the service's start only for services that are not force-recreated, which is not stated.
- ReloadHistory.InSyncAfterEverySuccess: assumes services recorded for the first time run under the fingerprint recorded, and no fingerprint that returns between a failed reload and the next success.
- Fingerprint.Sha256.ContentHash: a character stands for a byte, so the UTF-8 encoding of names is left out; `mount_fingerprints`, which chooses what to hash, is an input of ReloadHistory.
- OutlineSync.OutlineApi.Reconcile: addresses come stripped and case-folded; the checks of the source's state, sync status and group connections are the inputs `directory` and `steady`; error messages are one value, and a missing membership is an error like the others.
- Pagination.AuthentikList: a failed request and a payload of the wrong shape are the same outcome.
- GarageSync.Box.SyncKeys: credentials and permissions come parsed, and a grant entry per bucket and key is a map entry.
- GarageBuckets.Admin.SyncBuckets: the listing is a map from alias to bucket; `int(max_age_seconds)` is an integer already; lower case is that of A to Z.
- Garage configuration, deployment, layout bootstrap, UI and secrets.
- CertificateBind.Nas.BindServices: names come lower-cased and dates parsed; `on_duplicate` "fail" is left out; reverse-proxy services are visited in any order, and only service, subscriber and display name of a service are kept.
- CveScan.ParsePrevious: numbers are decimal integers (a float or an exponent is not one), word characters are ASCII, and an absent severity or fix label reads as the empty string instead of None.
- CveCarry.RoundTrip: labels without quotes and line breaks, and times of at least one second, as the format demands; counts stay below the size at which a float loses whole numbers.
- CveScan.RenderMetrics: the help texts are parameters; only that they hold no line break is used.
- SBOM building, CPE lookup, syft and grype: a scan is an attempt that gives counts and a time, or fails.
- AppPortal.Portal.Sync: entries are objects whose keys compare as JSON values, creates, updates and deletes go in any order within each list, numbers are whole, lower case is that of A to Z, the text of a container is not modelled, and deleting by alias or name does not occur because every live entry has an identity.
- AppPortal.SecondRunFindsNothing: about runs whose declared keys survive what DSM adds; which do is AppPortal.KeyStaysIffPort and AppPortal.PlainKeyStaysIff. Declared entries carry no UUID, which is DSM's to give.
- Quota.Share.Apply: the regular expression that takes the display apart is left out; a display is a rounded number with a unit; arithmetic is exact where the code uses floats; `do_user` differs in its command only.
- The remaining `apply_*.py` scripts and the repository's plumbing: one read, one overlay, one write, with nothing to say about whole runs.
