# Verified model of the y-cluster cores

`y-cluster` provisions Kubernetes clusters and converges kustomize bases onto
them. Most of it drives other programs. This project models the parts whose
correctness is decided in its own code, and proves what they promise:

- **Convergence planner** (`Graph`, `Traverse`, `Deps`, `Plan`, `Converge`,
  `Run`). Two depth-first walks, one over kustomize bases and one over CUE
  imports, are merged into a plan that is applied and checked step by step.
- **S3 image cache** (`ObjectKeys`, `Layout`, `Index`, `DedupProbe`, `Push`,
  `LostUpdates`, `Pushes`, `Preload`). Any number of pushers share a bucket without locks
  and stop anywhere; a node rebuilds an image from the index.
- **Docker host guest** (`Guest`, `Dockerhost`, `InUse`, `Recovery`, `Outcomes`,
  `Leftovers`). One VM, a state file and a client directory, changed under a lock
  by commands that can be killed between any two effects, and read without the
  lock.
- **Kubeconfig store** (`KubeCodec`, `KubeFile`, `LockedStore`, `KubeStore`). A
  codec that keeps keys it does not know, merge and cleanup, and
  load-modify-save under a lock with an atomic replace, for any codec and for
  this one.
- **String transformers**. `${VAR}` substitution (`Envsubst`, `EnvApply`, `EnvPaths`), shell
  quoting against a POSIX tokenizer (`Shell`, `Shquote`), and the YAML stream
  splitter with the install manifest (`Render`, `Install`, `Manifest`).
- **Auto-expiry** (`Lifetime`). A persisted deadline and host timers that may be
  stale.
- **Gateway projection** (`Summary`). Routes into per-listener buckets, and the
  hostnames taken from them.
- **GleSYS accounting** (`Glesys`, `Provisioned`). Servers and addresses against a
  sidecar.

`Wrappers`, `Strings`, `Sequences` and `Ordering` hold what the modules share. Run
`dafny verify dfyconfig.toml` to check everything.

## How it is modelled

Loops and objects of the source are methods and classes here (`Walker`,
`Resolver`, `CacheIndex`, `LoadedFile`, the plan and run loops, the summary
loops), each proved against a function or a stated property. Protocols, where a
process can stop between any two effects or run beside others, are state
machines: a `Step` function, an invariant, and theorems over every run. Calls
to kubectl, the bucket, qemu, the clouds and the host's schedulers are steps or
parameters that succeed or fail. A run is always a sequence of states and of the
events between them, so a theorem about `worlds[n]` is about every reachable
state.

Where a promise is false of the code, the model keeps the code, a witness shows
one input or one run on which it fails, and the exact condition is proved:

- The plan ends with the target, and so `Run` converges each planned step once,
  only if what in-tree files import is listed no later than the target
  (`Plan.EndsWithTargetIffLed`, `Run.ConvergesOnceIff`); an acyclic import graph
  is not enough (`Run.BackImportWitness`). Imports still converge first
  (`Run.ImportsConvergeFirst`).
- `resolveNamespace` ends exactly when the chain of single bases does not repeat
  (`Traverse.NamespaceResolvesIff`, `Traverse.NamespaceLoopWitness`), so planning
  can die on a tree in which everything is readable
  (`Converge.ResolvesIffReadable`, `Converge.PlanOverflowWitness`).
- Everything the target's tree imports converges before the target is applied
  exactly when the plan ends with the target (`Run.TreeConvergesFirstIff`).
- A push drops a stored index entry of another reference exactly when the entry
  was not stored at the moment that push read the index
  (`LostUpdates.PushLosesEntryIff`, `LostUpdates.LostEntryWitness`). Two images
  share a prefix exactly when digest and sanitized reference agree
  (`ObjectKeys.SamePrefixIff`, `ObjectKeys.RefsCanShareAPrefix`), and a reference
  shares with no other only if it has none of the characters sanitizing writes or
  rewrites (`ObjectKeys.AloneIff`).
- `Expand` agrees with its documentation exactly when the text has no `$`, a
  variable is undefined, or no character, value or default of it is a NUL
  (`Envsubst.ExpandIsMeaningIff`, `Envsubst.NulWitness`). A tagged string without
  `${` keeps its `$$`, which the documentation says is unescaped
  (`EnvApply.TaggedTextIsKeptAsWritten`, `EnvApply.TaggedTextWitness`).
- Loading and saving a kubeconfig leaves it as it was exactly when it is tidy
  (`KubeCodec.ParseThenSave`): a key beside `name` and the body of a named entry,
  and an empty known field, are dropped, although `schema.go` says everything else
  survives (`KubeCodec.LostSiblingWitness`, `KubeCodec.LostPreferencesWitness`).
- A kubeconfig process that saved has reported that, unless it was killed between
  the rename and the report (`LockedStore.CommittedIff`,
  `KubeStore.KilledImportWitness`).
- A rendered manifest reads as the rendering exactly when a final newline means
  nothing in the documents that are kept (`Manifest.RenderStreamIs`,
  `Manifest.NewlineWitness`), which is so for a stream that ends its last line.
- A guest in use is kept exactly as long as every decision lets it stay and every
  health check is answered (`InUse.KeptWhileInUseIff`).
- A VM left on disk without a record makes the next provision fail, and only the
  one after it succeed (`Recovery.ProvisionRecovers`); a kill and a disk that
  cannot be deleted lead there (`Recovery.VmWithoutRecordWitness`), and nothing
  else (`Leftovers.UnrecordedIff`).
- A teardown leaves nothing exactly when no kill or failed save still leaves
  addresses or a worker unsaved (`Glesys.TeardownLeavesNothingIff`,
  `Glesys.TakenUnsavedWitness`, `Glesys.WorkerUnsavedWitness`). Calls that fail
  are not enough (`Glesys.FailedCallsLeaveNothing`), and a second teardown finds
  the worker (`Glesys.SecondTeardownFindsTheWorker`).

## Model

| member | source | states |
|---|---|---|
| `Graph.WalkFromRoot` | pkg/yconverge/deps.go:44-69 | on any finite graph, cycles included, the shared-visited walk succeeds exactly when everything reachable is readable, and then lists exactly the reachable set, once each, the root last |
| `Graph.WalkIsTopological` | pkg/yconverge/deps.go:44-69 | on an acyclic graph the walk puts every successor before its predecessor, although branches share the visited set |
| `Graph.SiblingsInOrder` | pkg/yconverge/deps.go:44-69 | successors are walked in listing order, the later ones skipping what the first entered |
| `Traverse.SchemedIsRemote` | pkg/kustomize/traverse/traverse.go:117-133 | an entry with `://` anywhere or starting with `git@` is remote |
| `Traverse.DomainIff` | pkg/kustomize/traverse/traverse.go:117-133 | any other entry with a slash is remote if and only if its first segment has a dot, and not at its start |
| `Traverse.NoSlashIsLocal` | pkg/kustomize/traverse/traverse.go:117-133 | any other entry without a slash is local |
| `Traverse.RelativeIsLocal` | pkg/kustomize/traverse/traverse.go:117-133 | an entry that starts with `./` or `../` is local |
| `Traverse.LocalBasesAre` | pkg/kustomize/traverse/traverse.go:137-162 | the local bases are the joins of exactly the entries that are local, directories and have a kustomization, in order, resources before components |
| `Traverse.ListBases` | pkg/kustomize/traverse/traverse.go:137-162 | the loop over the entries computes those bases |
| `Traverse.Walker.WalkTree` | pkg/kustomize/traverse/traverse.go:173-192 | the recursive method with its two shared fields computes the walk of the base graph |
| `Traverse.CollectDirs` | pkg/kustomize/traverse/traverse.go:164-171 | the listing, or the error, of that walk from an empty visited set |
| `Traverse.DirsOrder` | pkg/kustomize/traverse/traverse.go:164-192 | the listed directories are those reachable over local bases, once each, root last, bases first when acyclic |
| `Traverse.NamespaceRules` | pkg/kustomize/traverse/traverse.go:194-207 | a kustomization's own namespace wins; without one, a single local base decides; otherwise there is none |
| `Traverse.DepthIrrelevant` | pkg/kustomize/traverse/traverse.go:194-207 | two recursion depths at which the namespace resolves give the same namespace |
| `Traverse.NamespaceResolvesIff` | pkg/kustomize/traverse/traverse.go:194-207 | the unguarded recursion ends if and only if the chain of single bases without a namespace never repeats a directory |
| `Traverse.NamespaceLoopWitness` | pkg/kustomize/traverse/traverse.go:194-207 | a tree on which it does not end at any depth |
| `Traverse.WalkRoot` | pkg/kustomize/traverse/traverse.go:33-57 | the walk is refused exactly when the root has no kustomization or the tree one that cannot be read, and otherwise gives its directories and namespace, or overflows the stack exactly when the namespace recursion never ends |
| `Traverse.WalksIff` | pkg/kustomize/traverse/traverse.go:33-57 | the walk gives a result if and only if the root has a kustomization, all in the tree are readable and the chain of single bases does not repeat |
| `Deps.Resolver.ResolveDepsWalk` | pkg/yconverge/deps.go:44-69 | the recursive method over the shared visited map and order computes the walk of the import graph |
| `Deps.ResolveDeps` | pkg/yconverge/deps.go:21-42 | the dependency order of a directory, or the failure of an unreadable file or of a module without a name |
| `Deps.ClosureOrder` | pkg/yconverge/deps.go:11-14 | the result is exactly the import closure, once each, target last, and dependencies first when acyclic |
| `Plan.StepsAre` | pkg/yconverge/yconverge.go:145-175 | the plan has no duplicates and holds exactly the target and what in-tree files import, directly or not, other than the file itself |
| `Plan.CueFilesAreSelected` | pkg/yconverge/cue.go:103-112 | the in-tree files are the walked directories with a yconverge.cue, in the order of the walk |
| `Plan.DedupOrder` | pkg/yconverge/yconverge.go:154-169 | the merge keeps the first occurrence of every directory, in order |
| `Plan.StepsAreOrdered` | pkg/yconverge/yconverge.go:145-175 | on acyclic imports, every import of every step comes earlier in the merged plan |
| `Plan.EndsWithTargetIff` | pkg/yconverge/yconverge.go:154-172 | the plan ends with the target if and only if nothing new is listed after it |
| `Plan.EndsWithTargetIffLed` | pkg/yconverge/yconverge.go:154-172 | read off the import graph: the first in-tree file that leads to the target decides, and everything the tree's files import must come from an earlier file or no later than the target in its order |
| `Plan.UnledTargetIsLast` | pkg/yconverge/yconverge.go:170-172 | when no in-tree file leads to the target, it is added at the end |
| `Plan.NoBackImportEndsWithTarget` | pkg/yconverge/yconverge.go:154-172 | it does when no other in-tree file leads back to the target by imports |
| `Converge.BuildPlan` | pkg/yconverge/yconverge.go:145-175 | the plan-building branches: without a module only the target; otherwise success exactly when the walk gives a result and module name and files are readable, and then the merged plan; a stack overflow exactly when only the namespace recursion fails the walk |
| `Converge.MergeClosures` | pkg/yconverge/yconverge.go:153-169 | the nested loops over in-tree files produce the deduplicated listing |
| `Converge.MergeClosure` | pkg/yconverge/yconverge.go:160-168 | the inner loop with its skip and visited map appends exactly the new directories |
| `Converge.ResolvesIffReadable` | pkg/yconverge/yconverge.go:147-159 | planning succeeds if and only if every base reachable and every file imported from the tree can be read, the module has a name when some file needs it, and the target's chain of single bases does not repeat |
| `Converge.PlanOverflowWitness` | pkg/kustomize/traverse/traverse.go:194-207 | a tree in which everything is readable and planning dies in its walk |
| `Converge.ConvergeSingle` | pkg/yconverge/yconverge.go:231-303 | every check comes after its own step's apply, every apply after its selector matched, and what the options leave out does not happen; a success checks every yconverge.cue of the tree once, in order; a failure is a prefix ending in the failed call, and there is no event at all exactly when the step's walk gives no result |
| `Converge.ApplyAndCheck` | pkg/yconverge/yconverge.go:253-302 | the same of the phases: selector preflight, apply, checks in order under ChecksOnly and SkipChecks |
| `Converge.RunChecks` | pkg/yconverge/yconverge.go:288-299 | checks run file by file and stop at the first failure |
| `Run.Run` | pkg/yconverge/yconverge.go:110-228 | plan, print-only and execution paths, the history each leaves, and where a walk that gives no result ends it |
| `Run.Execute` | pkg/yconverge/yconverge.go:183-227 | the step loop runs every step before the last, then the target, and stops at the first failure |
| `Run.OrderIsPlanIff` | pkg/yconverge/yconverge.go:189-223 | what is converged is the plan if and only if the plan ends with the target |
| `Run.EveryRun` | pkg/yconverge/yconverge.go:183-303 | for every plan and whatever the cluster answers: converged means applied and checked, nothing follows a failure, and converged and applied steps are a prefix of the order, all of it exactly on success |
| `Run.EveryRunIsPhased` | pkg/yconverge/yconverge.go:253-302 | in every run of any plan, against any cluster: each check after its own step's apply, each apply after its selector matched, no check, preflight or apply the options leave out |
| `Run.ImportsConvergeFirst` | pkg/yconverge/yconverge.go:183-303 | on acyclic imports nothing is applied before everything it imports converged, wherever the plan ends |
| `Run.ConvergesOnceIff` | pkg/yconverge/yconverge.go:189-223 | a successful run converges every planned step exactly once if and only if the plan ends with the target; otherwise the target twice and the last step never |
| `Run.RunFollowsPlan` | pkg/yconverge/yconverge.go:183-228 | for such a plan the converged steps are a prefix of it, all of it on success, and no directory is applied twice |
| `Run.TreeConvergesFirst` | pkg/yconverge/yconverge.go:128-144 | when the plan ends with the target, in every run everything any file of the target's tree imports has converged before the target is applied |
| `Run.TreeConvergesFirstIff` | pkg/yconverge/yconverge.go:128-144 | in a successful run that applies, that holds if and only if the plan ends with the target; otherwise some such import never converges |
| `Run.BackImportWitness` | pkg/yconverge/yconverge.go:170-189 | acyclic imports with an in-tree import leading back to the target: the target is converged twice and a step never |
| `ObjectKeys.PrefixIs` | pkg/images/s3.go:207-224 | for a plain reference and a sha256 digest the joined, cleaned path is the three segments |
| `ObjectKeys.CleanLaws` | pkg/images/s3.go:222-224 | joining path segments, a name and `..` cancel out, `.` and nothing change nothing, and a leading `..` stays |
| `ObjectKeys.SpecialPrefix` | pkg/images/s3.go:207-224 | the prefix of a reference that sanitizes to nothing, `.` or `..` loses the reference's segment, and the one before it for `..` |
| `ObjectKeys.ImageKeyDetermines` | pkg/images/s3.go:222-224 | equal per-image keys mean equal prefix, digest and file |
| `ObjectKeys.SamePrefixIff` | pkg/images/s3.go:207-224 | two images share a prefix if and only if their sanitized references and their digests are equal |
| `ObjectKeys.SafeRefInjective` | pkg/images/s3.go:207-210 | sanitizing is injective on references without an underscore and without a dash at the end, before a dash or before a colon |
| `ObjectKeys.AloneIff` | pkg/images/s3.go:207-210 | no other reference has the same sanitized form if and only if the reference has no slash, colon or underscore and no two dashes in a row |
| `ObjectKeys.RefsCanShareAPrefix` | pkg/images/s3.go:207-210 | two different references with the same prefix |
| `ObjectKeys.KeysApart` | pkg/images/s3.go:161-161 | per-image keys, shared blob keys and the index key never coincide |
| `Layout.PartitionIs` | pkg/images/s3.go:345-354 | every layout file is in exactly one of the two parts |
| `Layout.BlobsAreSelected` | pkg/images/s3.go:345-354 | the blobs keep the order of the layout |
| `Layout.ManifestsAreSelected` | pkg/images/s3.go:345-354 | so do the other files |
| `Layout.PartitionLayoutFiles` | pkg/images/s3.go:345-354 | the loop splits by the blob prefix, keeping order |
| `Layout.OrderForUpload` | pkg/images/s3.go:464-482 | the loop puts oci-layout and index.json last, in that order |
| `Layout.UploadParts` | pkg/images/s3.go:461-482 | every file goes up as often as it is listed: the plain ones in their order, then oci-layout, then index.json |
| `Layout.IndexJsonLast` | pkg/images/s3.go:461-482 | every file is uploaded, and index.json only when every other file already is |
| `Index.Find` | pkg/images/s3.go:166-173 | the first entry of the reference, or none |
| `Index.CacheIndex.Upsert` | pkg/images/s3.go:177-195 | the entry replaces every one of its reference, nothing else is lost or duplicated, sorted by reference |
| `Index.Replace` | pkg/images/s3.go:178-192 | the loop's multiset: all other entries and the new one once |
| `Index.UpsertReads` | pkg/images/s3.go:163-195 | after an upsert the new entry is found and every other reference reads as before |
| `DedupProbe.ReachableInv` | pkg/images/s3.go:380-409 | in every schedule each index is waiting, with one worker, or answered, and answers are truthful |
| `DedupProbe.Collect` | pkg/images/s3.go:410-419 | the loop returns the first error, or the absent paths in input order |
| `DedupProbe.ProbeIsSound` | pkg/images/s3.go:370-420 | for every schedule on a growing bucket each index is probed once and the result lies between absent at the end and absent at the start |
| `Push.StepKeepsInv` | pkg/images/s3.go:244-337 | one request of one pusher keeps every promise about the bucket |
| `Push.RunKeepsInv` | cmd/y-cluster/images_push.go:103-122 | so does every interleaving, with any pusher stopped anywhere |
| `Push.StoredIndexStaysComplete` | pkg/images/s3.go:226-243 | every entry of every index ever stored has all its manifests and blobs in the bucket from then on |
| `Push.EmptyBucketIsGood` | pkg/images/s3.go:484-486 | an empty bucket is a good start |
| `Push.FinishedPushIsFound` | cmd/y-cluster/images_push.go:113-122 | readers of the index a pusher writes find its entry, and everything it lists is in the bucket |
| `Pushes.PushFinishes` | cmd/y-cluster/images_push.go:103-122 | after any run, a push that starts on a readable index can go through to its end, its entry found and complete |
| `LostUpdates.StepKeepsEntryIff` | cmd/y-cluster/images_push.go:111-122 | one request keeps a stored entry unless it writes the index from a copy without it, or another entry of its reference |
| `LostUpdates.PushLosesEntryIff` | cmd/y-cluster/images_push.go:111-122 | over a run, a push of another reference loses a stored entry if and only if the entry was not stored when that push read the index |
| `LostUpdates.EntryStays` | cmd/y-cluster/images_push.go:111-122 | an entry stored while no copy without it is outstanding stays stored and complete until its reference is pushed again |
| `LostUpdates.LostEntryWitness` | cmd/y-cluster/images_push.go:111-122 | a run of two pushes that both finish, after which the first one's entry is gone |
| `LostUpdates.NewerIndexStays` | pkg/images/s3.go:484-530 | no run overwrites an index of a newer schema version |
| `Preload.PresignEntry` | pkg/images/preload.go:113-132 | exactly the listed files get a URL: a blob that of the shared object at its own path, any other file that under the entry's prefix |
| `Preload.BuildPreloadScript` | pkg/images/preload.go:165-190 | one mkdir and one fetch per path, sorted |
| `Preload.SortRelsSorts` | pkg/images/preload.go:165-172 | the listed paths are fetched in order, each as often as listed |
| `Preload.DirOfIs` | pkg/images/preload.go:286-297 | the parent of `d/f` is `d`, and of a file at the root the root |
| `Preload.PreloadRebuilds` | pkg/images/preload.go:165-190 | on a node where a fetch needs the directory of its file, running the script for a complete entry of either schema version leaves exactly the layout's files |
| `Preload.PreloadAfterPush` | pkg/images/preload.go:101-112 | push, then preload at any later time, is a round trip |
| `Guest.JoinCommaInjective` | pkg/dockerhost/dockerhost.go:196-196 | comparing joined resolver lists is comparing the lists |
| `Guest.NoDriftIff` | pkg/dockerhost/dockerhost.go:188-204 | no drift if and only if network mode, network and size are the configured ones |
| `Guest.KeptGuestHasValidCertificates` | pkg/dockerhost/dockerhost.go:151-180 | a guest that is not replaced has certificates for more than 29 days |
| `InUse.KeptWhileInUseIff` | pkg/dockerhost/dockerhost.go:151-240 | over any run without a teardown command or power-off, nobody begins to replace a ready, running guest if and only if every decision lets it stay, judged by the record it had at the start (no drift, not a day past its maximum age, in use or nothing against it), and every health check is answered; until then it is the same guest, up, with the same record but for the lease |
| `Dockerhost.AdvanceKeepsInv` | pkg/dockerhost/dockerhost.go:112-338 | every effect of provision and teardown, successful or not, keeps: a running guest has a record, a ready record's client directory is its guest's |
| `Dockerhost.RunKeepsInv` | pkg/dockerhost/dockerhost.go:425-454 | so does every run, with kills, power-offs and clock changes anywhere |
| `Recovery.ExportsOnlyTheRunningGuest` | pkg/dockerhost/dockerhost.go:503-542 | from any snapshot, Env exports only the running guest's credentials, and BuildkitClient gives an address exactly when Env exports |
| `Recovery.StaysOnTrack` | pkg/dockerhost/dockerhost.go:208-338 | an undisturbed provision reaches an end with a usable guest in a bounded number of effects |
| `Recovery.ProvisionRecovers` | pkg/dockerhost/dockerhost.go:112-338 | from every state a killed command can leave, one undisturbed provision ends ready, matching and with 29 days of certificates exactly when no VM lacks a record |
| `Outcomes.ProvisionOutcome` | pkg/dockerhost/dockerhost.go:112-338 | an undisturbed provision keeps the guest, booting it from its disk when it is off, if and only if it is ready, as configured, young with the current pins (or in use and at most a day too old), and works; then only lease and boot time change; otherwise it ends with a new guest of a CA never used before and a record of this configuration; Env exports the result |
| `Outcomes.SuccessWasHealthy` | pkg/dockerhost/dockerhost.go:206-338 | in every run, a provision that reports a guest checked one that answered, over TLS with its own client files and valid certificates |
| `Outcomes.FailedCreateLeavesNothing` | pkg/dockerhost/dockerhost.go:298-330 | whatever fails while a guest is made, a removal that works leaves no VM, no client directory and no record |
| `Outcomes.FailedRemovalKeepsRecord` | pkg/dockerhost/dockerhost.go:436-454 | a removal that fails at a step leaves the record for the next command |
| `Outcomes.TeardownOutcome` | pkg/dockerhost/dockerhost.go:436-454 | an undisturbed teardown leaves no VM, no client directory and no record |
| `Outcomes.UnsetIff` | pkg/dockerhost/dockerhost.go:503-542 | a shell that carries this dockerhost's variables is told to unset them exactly when nothing is exported |
| `Recovery.VmWithoutRecordWitness` | pkg/dockerhost/dockerhost.go:425-454 | a run that leaves a VM without a record and nobody holding the lock |
| `Leftovers.LeftoverIff` | pkg/dockerhost/dockerhost.go:436-454 | the VM's disk is a left-over one if and only if a teardown could not delete it and none has since |
| `Leftovers.UnrecordedIff` | pkg/dockerhost/dockerhost.go:436-454 | in every run a VM has no record if and only if a teardown left its disk and then a record was removed, with the disk not deleted and no record saved since |
| `Leftovers.WorkingRemovals` | pkg/dockerhost/dockerhost.go:503-542 | where every disk removal works, a VM always has a record, and what Env exports is exactly the running guest's client directory |
| `Envsubst.MatchSound` | pkg/envsubst/envsubst.go:58-58 | what the reference pattern matches is a valid name with an optional default up to the first brace |
| `Envsubst.MatchComplete` | pkg/envsubst/envsubst.go:54-58 | every such reference is matched, whatever follows |
| `Envsubst.NameIff` | pkg/envsubst/envsubst.go:58-58 | a name is ASCII letters, underscores and digits, not starting with a digit |
| `Envsubst.ReferenceIs` | pkg/envsubst/envsubst.go:83-101 | a reference expands to the variable, empty or not, to its default when the variable is not set, and to an error naming it without one |
| `Envsubst.HideMatch` | pkg/envsubst/envsubst.go:75-81 | hiding the escapes neither makes nor loses a reference, and only changes its default |
| `Envsubst.PhasesAgree` | pkg/envsubst/envsubst.go:75-106 | hide-and-replace has the same first undefined variable as one reading, and the same text once restored |
| `Envsubst.ExpandIsOneReading` | pkg/envsubst/envsubst.go:60-106 | for every text and environment, Expand is the single left-to-right reading, which never scans a value again |
| `Envsubst.ExpandIsMeaningIff` | pkg/envsubst/envsubst.go:75-79 | Expand is the documented meaning if and only if the text has no dollar, a variable is undefined, or no character, value or default it stands for has a NUL |
| `Envsubst.NulFreeExpandIsMeaning` | pkg/envsubst/envsubst.go:60-106 | for every NUL-free text and NUL-free variables it is |
| `Envsubst.NulWitness` | pkg/envsubst/envsubst.go:75-79 | an input where it shows |
| `Envsubst.PrintRoundTrip` | pkg/envsubst/envsubst.go:22-33 | every text and every reference can be written, and reads back as itself |
| `Envsubst.DoubledComesBack` | pkg/envsubst/envsubst.go:28-28 | expanding a NUL-free text with every dollar doubled gives it back |
| `EnvApply.WalkExplained` | pkg/envsubst/envsubst.go:143-217 | a walk of a configuration value is the policy applied to its strings in walking order |
| `EnvApply.ApplyFollowsPolicy` | pkg/envsubst/envsubst.go:108-141 | Apply succeeds exactly when no key or untagged string has a reference and every tagged one expands; it changes only those, and reports the first offender otherwise |
| `EnvPaths.ApplyRefusesIff` | pkg/envsubst/envsubst.go:108-141 | Apply fails if and only if some map key has a reference, or some string has one that the nearest field around it is not tagged for or that does not expand |
| `EnvPaths.ContainsRefIff` | pkg/envsubst/envsubst.go:232-239 | a reference is there when a dollar is followed by a brace |
| `EnvPaths.ApplyAt` | pkg/envsubst/envsubst.go:108-217 | otherwise the string at every path is expanded if it has a reference and can be stored, and stays as it is if not |
| `EnvApply.TaggedTextIsKeptAsWritten` | pkg/envsubst/envsubst.go:219-239 | a tagged string without a reference is kept, and agrees with Expand exactly without `$$` and NUL |
| `EnvApply.TaggedTextWitness` | pkg/envsubst/envsubst.go:219-223 | a tagged string that keeps both dollars of `$$` |
| `Shquote.RunQuote` | pkg/shquote/shquote.go:10-15 | a quoted string is one shell word, whatever is in it |
| `Shquote.JoinRoundTrip` | pkg/shquote/shquote.go:17-25 | the words of a joined line are exactly the arguments, empty ones included, if and only if none holds a NUL |
| `Shquote.JoinInjective` | pkg/shquote/shquote.go:17-25 | different arguments give different lines |
| `Shquote.RunShellDelivers` | pkg/cluster/exec.go:93-95 | the node's shell runs sudo sh -c with a last word equal to the command |
| `Shquote.TwoLevels` | pkg/cluster/exec.go:82-95 | a joined line sent that way is the same words again |
| `Shquote.NodeCommandDelivers` | pkg/cluster/exec.go:71-81 | the k3s command line has the binary and exactly the arguments |
| `Shquote.AtScriptRunsReap` | pkg/lifetime/timer.go:116-124 | the at(1) script is the one command `<binary> lifetime reap --context=<context>`, its marker a comment, for every binary path and context name |
| `Shquote.UnitNameIff` | pkg/lifetime/timer.go:35-52 | two contexts share a timer unit exactly when they agree up to the characters mapped to a dash |
| `Shquote.UnitNameIs` | pkg/lifetime/timer.go:35-52 | the unit name is the prefix and the context with every character but ASCII letters, digits and dashes made a dash |
| `KubeCodec.DecodeKeepingUnknown` | pkg/kubeconfig/unknown.go:20-34 | the delete loop leaves exactly the keys the struct has no field for |
| `KubeCodec.EncodeWithUnknown` | pkg/kubeconfig/unknown.go:39-54 | the merge loop adds the unknown keys, in any order, modelled keys winning |
| `KubeCodec.DecodeEncode` | pkg/kubeconfig/unknown.go:10-16 | decoding and encoding keeps every unknown key and every non-empty known one, and drops exactly the empty known ones |
| `KubeCodec.EncodeDecode` | pkg/kubeconfig/unknown.go:20-54 | encoding and decoding is the identity |
| `KubeCodec.EntryKept` | pkg/kubeconfig/schema.go:37-76 | a named entry keeps its name and tidy body, and is unchanged exactly when it holds nothing else |
| `KubeCodec.SaveThenParse` | pkg/kubeconfig/schema.go:116-176 | reading back a saved file gives the same file |
| `KubeCodec.ParseIsWellFormed` | pkg/kubeconfig/schema.go:116-142 | parsing fills every field and the defaults |
| `KubeCodec.ParseThenSave` | pkg/kubeconfig/schema.go:25-26 | a file is written back as it was read if and only if it is tidy, and its unknown top-level keys always survive |
| `KubeCodec.LostSiblingWitness` | pkg/kubeconfig/schema.go:37-41 | whatever stands beside name and body of a named entry is gone after a save |
| `KubeCodec.LostPreferencesWitness` | pkg/kubeconfig/schema.go:32-32 | so are empty preferences |
| `KubeFile.LoadedFile.Find` | pkg/kubeconfig/schema.go:180-207 | the loop finds the first entry of the name, or -1 |
| `KubeFile.LoadedFile.UpsertInto` | pkg/kubeconfig/schema.go:251-273 | replaces the first entry of the name in place, or appends |
| `KubeFile.LoadedFile.RemoveFrom` | pkg/kubeconfig/schema.go:223-246 | removes the first entry of the name and keeps the rest in order |
| `KubeFile.LoadedFile.RemoveContext` | pkg/kubeconfig/schema.go:223-230 | also clears the current context when it is that name |
| `KubeFile.LoadedFile.MergeFrom` | pkg/kubeconfig/schema.go:280-293 | the three loops upsert every incoming entry; a non-empty current context wins |
| `KubeFile.DefaultsRenamedAre` | pkg/kubeconfig/schema.go:295-316 | only the first default of each list changes: its name, the context's cluster and user, which become the cluster's name, and nothing else of them; the current context follows its context |
| `KubeFile.LoadedFile.RenameDefaults` | pkg/kubeconfig/schema.go:299-316 | the method computes that, in place |
| `KubeFile.LookupUpsert` | pkg/kubeconfig/schema.go:248-273 | after an upsert the name reads as the new entry and every other name as before |
| `KubeFile.LookupMerge` | pkg/kubeconfig/schema.go:280-293 | after a merge a name that comes in reads as the last entry of it, |
| `KubeFile.LookupMergeOther` | pkg/kubeconfig/schema.go:280-293 | and any other name as before |
| `KubeFile.KeepUpsert` | pkg/kubeconfig/schema.go:248-273 | entries of other names keep their order in an upsert |
| `KubeFile.KeepRemove` | pkg/kubeconfig/schema.go:220-246 | and in a removal |
| `KubeFile.KeepConcat` | pkg/kubeconfig/unknown.go:9-16 | what is foreign of a list is so part by part |
| `KubeFile.SingleImport` | pkg/kubeconfig/kubeconfig.go:87-113 | importing one default of each adds or replaces one entry in each list, the context pointing at the imported cluster and user |
| `KubeFile.ImportThenCleanup` | pkg/kubeconfig/kubeconfig.go:58-113 | cleanup after import restores the three lists in order and changes at most the current context |
| `KubeFile.CleanupIdleIff` | pkg/kubeconfig/kubeconfig.go:58-79 | cleanup writes nothing if and only if the file has no entry of its names |
| `KubeFile.ImportSavesWellFormed` | pkg/kubeconfig/kubeconfig.go:95-113 | what Import saves can be read back |
| `KubeFile.CleanupSavesWellFormed` | pkg/kubeconfig/kubeconfig.go:58-85 | so can what CleanupStale saves |
| `LockedStore.StepKeepsInv` | pkg/kubeconfig/write.go:21-101 | every effect, kill and power loss, also between the rename and the report, keeps: what the lock holder is to save is the operation on what is on disk, and only a complete, synced file is renamed |
| `LockedStore.AlwaysTheCommittedOperations` | pkg/kubeconfig/write.go:11-101 | for any codec that reads back what it saves, at every moment of every run the file is as it was found or a complete save, reads as the committed operations in lock order, and every process that reported a save is among them |
| `LockedStore.CommittedIff` | pkg/kubeconfig/write.go:21-101 | a process has committed if and only if it reported a save, is about to, or was killed or lost power between its rename and its report |
| `LockedStore.OneOperation` | pkg/kubeconfig/kubeconfig.go:58-113 | an operation that nothing disturbs: a cleanup without a file or without its names does nothing, a file that cannot be read is refused and left alone, otherwise the result is saved and reported; the lock is free again |
| `KubeStore.KubeReadsBack` | pkg/kubeconfig/schema.go:116-176 | Parse and Save are such a codec under Import and CleanupStale, from any document that parses |
| `KubeStore.EmptyReads` | pkg/kubeconfig/schema.go:94-153 | no file and an empty one read as the same: version v1, kind Config and nothing else |
| `KubeStore.KubeconfigReads` | pkg/kubeconfig/write.go:61-69 | the kubeconfig document of every moment of every run reads as the committed operations over what the first document read as |
| `KubeStore.ImportIsKept` | pkg/kubeconfig/kubeconfig.go:87-113 | a committed import stays in the file, its context naming its cluster and user, until an operation of its names commits |
| `KubeStore.ForeignSurvives` | pkg/kubeconfig/unknown.go:9-16 | at every moment of every run whose processes use other names, foreign entries are there in order, with the unknown top-level keys |
| `KubeStore.NoImportIsLost` | pkg/kubeconfig/write.go:61-69 | at every moment of every run, an import that reported success under names no other process uses is in the document |
| `KubeStore.KilledImportWitness` | pkg/kubeconfig/write.go:21-101 | a run in which an import saved the file and reported nothing |
| `Render.SplitDocuments` | pkg/provision/envoygateway/render.go:185-203 | the loop over lines with its buffer computes the split |
| `Render.SeparatorIff` | pkg/provision/envoygateway/render.go:194-198 | a separator is three dashes and nothing but blanks after them |
| `Render.ContentIff` | pkg/provision/envoygateway/render.go:205-213 | a line has content when the first character that is no white space is there and no comment sign |
| `Render.SpaceIff` | pkg/provision/envoygateway/render.go:207-207 | white space is Unicode's |
| `Render.JoinDocuments` | pkg/provision/envoygateway/render.go:215-225 | the loop writes separator, document and a missing final newline |
| `Render.JoinConcat` | pkg/provision/envoygateway/render.go:215-225 | a stream is its documents in order, |
| `Render.JoinOne` | pkg/provision/envoygateway/render.go:215-225 | each after a separator line, with its last line ended |
| `Render.SplitIsClean` | pkg/provision/envoygateway/render.go:183-213 | every document has content and no separator line |
| `Render.SplitLosesNothing` | pkg/provision/envoygateway/render.go:183-213 | the documents hold every line with content, in order |
| `Render.SplitOfJoin` | pkg/provision/envoygateway/render.go:185-225 | splitting joined documents gives them with final newlines |
| `Render.JoinAfterSplit` | pkg/provision/envoygateway/render.go:185-225 | for every stream, split after join after split only adds final newlines, and join after split is idempotent |
| `Install.SetControllerRequests` | pkg/provision/envoygateway/render.go:136-170 | the in-place loop sets the asked-for requests of the containers called envoy-gateway, leaves those not asked for, and changes nothing else |
| `Install.ControllerImageIs` | pkg/provision/envoygateway/render.go:93-130 | the controller image is that of the first envoy-gateway Deployment of the manifest with such a container |
| `Install.ControllerImageIff` | pkg/provision/envoygateway/render.go:93-130 | there is one exactly when some Deployment is the controller's, with its container, and every Deployment before it parses |
| `Install.RenderSucceedsIff` | pkg/provision/envoygateway/render.go:30-55 | rendering fails without a controller image and, when requests are asked for, on a Deployment that does not parse or lacks the controller's container; on nothing else |
| `Install.RenderDrops` | pkg/provision/envoygateway/render.go:24-36 | a hook Job is left out if and only if the manifest's controller image is the live one; every other document that is no Deployment is there as often as before |
| `Install.RenderKeeps` | pkg/provision/envoygateway/render.go:17-55 | rendering keeps order, the controller image and everything but its requests, and is idempotent |
| `Install.RenderSets` | pkg/provision/envoygateway/render.go:17-22 | the requests that were asked for are in every controller container of the result |
| `Manifest.RenderStreamIs` | pkg/provision/envoygateway/render.go:30-55 | rendering a stream fails as rendering its records does; otherwise the rendered stream reads as the rendered records if and only if a final newline means nothing in the kept documents, and then rendering it again gives the same text |
| `Manifest.EndedStreamIsSafe` | pkg/provision/envoygateway/render.go:185-225 | a stream that ends its last line meets that condition, whatever the codec |
| `Manifest.NewlineWitness` | pkg/provision/envoygateway/render.go:215-225 | a stream without a final newline that does not |
| `Manifest.RequestsWitness` | pkg/provision/envoygateway/render.go:136-170 | a codec and a stream whose controller is rewritten and reads back |
| `Lifetime.DelayBounds` | pkg/lifetime/timer.go:54-114 | a timer ends less than one unit past the deadline; at(1) never before it, systemd less than a second before |
| `Lifetime.EarlyAtMostOnce` | pkg/lifetime/timer.go:54-64 | in any run of systemd timers left alone, reap wakes before the deadline at most once |
| `Lifetime.NoSecondEarlyWake` | pkg/lifetime/timer.go:54-64 | no two of its wake-ups are before the deadline |
| `Lifetime.SystemdWakesTwice` | pkg/lifetime/timer.go:54-64 | and then acts within a second |
| `Lifetime.NeverEarly` | cmd/y-cluster/lifetime.go:151-257 | in every run, with any timers pending and any clock, each expiry action ran at some state of the run whose own sidecar named that action and a deadline its clock had reached |
| `Lifetime.ExtensionsHold` | cmd/y-cluster/lifetime.go:232-239 | until the cluster is started or torn down again the deadline never moves back, so no timer undoes an extension |
| `Lifetime.AnchorSets` | pkg/provision/qemu/state.go:213-237 | provision, start and resume put the deadline one budget from now, down to the second |
| `Lifetime.DeadlineMoves` | cmd/y-cluster/lifetime.go:232-239 | until then the deadline moves by what the extensions ask for, each down to the second, and by nothing else |
| `Lifetime.BudgetHolds` | cmd/y-cluster/lifetime.go:151-257 | from an anchoring on, no action runs before the budget is over, to the second |
| `Lifetime.ReapActsIff` | cmd/y-cluster/lifetime.go:208-230 | reap acts exactly on a budget whose deadline the clock has reached |
| `Lifetime.ReapLeaves` | cmd/y-cluster/lifetime.go:151-190 | an action takes the sidecar away only when it is a teardown that worked, and a failed one leaves sidecar and timers |
| `Lifetime.ArmingArms` | pkg/lifetime/timer.go:132-166 | a successful arm leaves a wake-up due in time |
| `Lifetime.CommandsArm` | cmd/y-cluster/lifetime.go:56-78 | where arming works, provision, start, resume, extend and arm leave a wake-up due within a unit and a second of the deadline |
| `Lifetime.CommandsForget` | cmd/y-cluster/lifetime.go:62-88 | a teardown by command takes the sidecar and a disarm only timers; without a deadline extend and arm do nothing |
| `Lifetime.ActsInTime` | cmd/y-cluster/lifetime.go:151-230 | armed and left to exact timers, the action has run once the clock is one unit past the deadline |
| `Summary.PlainRefAttaches` | pkg/gateway/summary.go:335-352 | a plain reference attaches a route to every listener of the gateway it names and to no other's |
| `Summary.NarrowingIs` | pkg/gateway/summary.go:335-352 | a section or port only narrows that to the listeners of that name or port; only gateways are attached to |
| `Summary.AnyRefAttaches` | pkg/gateway/summary.go:335-352 | any one of a route's references will do |
| `Summary.RouteAttachesTo` | pkg/gateway/summary.go:335-352 | the loop finds whether some reference attaches |
| `Summary.AddRoute` | pkg/gateway/summary.go:361-372 | the closure adds a route's rules to each host's bucket as often as it names it |
| `Summary.CollectHosts` | pkg/gateway/summary.go:359-405 | the buckets of a listener: strictly ordered with "*" last, exactly the listed hosts, each with its rules in route order |
| `Summary.BucketConcat` | pkg/gateway/summary.go:354-405 | a bucket lists the routes in order, |
| `Summary.BucketOfOne` | pkg/gateway/summary.go:361-372 | and each attached route that declares the host, or none for the catch-all, with each of its rules once, in order |
| `Summary.BuildSummary` | pkg/gateway/summary.go:194-217 | one section for every listener of every gateway, in order |
| `Summary.Hostnames` | pkg/gateway/hostnames.go:27-47 | the names other than "" and "*" of a summary, strictly sorted |
| `Summary.ShownIffDeclared` | pkg/gateway/hostnames.go:5-13 | those are exactly the names declared by a route attached to a listener with a parsed rule |
| `Summary.SummaryHostnames` | pkg/gateway/hostnames.go:5-26 | both together |
| `Summary.EveryRuleIsListed` | pkg/gateway/summary.go:354-405 | per listener, each attached route accounts for its rules times the hostnames it declares, or once without any |
| `Glesys.StepKeepsInv` | pkg/provision/glesys/glesys.go:134-254 | every effect and kill keeps: the sidecar, or without ids the names, lead to everything of the cluster outside the known gaps |
| `Glesys.FailedReservationHoldsNothing` | pkg/provision/glesys/glesys.go:516-542 | a reservation that fails holds no address |
| `Provisioned.ProvisionOutcome` | pkg/provision/glesys/glesys.go:134-254 | a provision that meets no failure ends with the control plane and every worker under their names, addresses and saved ids if enough of the offered addresses are free, and with nothing otherwise |
| `Provisioned.WorkerNames` | pkg/provision/glesys/glesys.go:233-235 | different workers have different names, none of them the control plane's, and the name fallback matches them |
| `Provisioned.DecimalReads` | pkg/provision/glesys/glesys.go:234-234 | a worker's number reads back from its decimal digits |
| `Glesys.GapsAreEvents` | pkg/provision/glesys/glesys.go:177-245 | in every run, the gap a command carries is that of a kill or failed save still open, and every one still open is carried |
| `Glesys.TeardownLeavesNothingIff` | pkg/provision/glesys/glesys.go:547-604 | a teardown that succeeds leaves no server and no address of the cluster if and only if no kill or failed save has left addresses unsaved, or a worker unsaved since the end of an earlier teardown that had removed the sidecar; it touches nothing else |
| `Glesys.FailedCallsLeaveNothing` | pkg/provision/glesys/glesys.go:547-604 | without kills and failed saves, whatever other calls fail, it leaves nothing |
| `Glesys.TakenUnsavedWitness` | pkg/provision/glesys/glesys.go:177-193 | a run killed between taking an address and the first save: the teardown succeeds and the address stays held |
| `Glesys.WorkerUnsavedWitness` | pkg/provision/glesys/glesys.go:236-244 | a run killed between creating a worker and its save: the teardown succeeds and the worker stays |
| `Glesys.SecondTeardownFindsTheWorker` | pkg/provision/glesys/state.go:121-138 | once a teardown has removed the sidecar, whether it then succeeds or fails, the next one that succeeds removes a worker nobody saved, unless addresses were taken and never saved |

## Left out

- Reading files and parsing: YAML, CUE, JSON and kustomizations come parsed. Paths are absolute and cleaned; `Tree.join` stands for joining them. `ParseImports`' text matching and `FindCueModuleRoot` are parameters.
- Planner: the namespace handed to the checks, what a check does, dry-run flags, printed headers and `RelPath` are not modelled. A check file without checks passes.
- Converge.ConvergeSingle: answers each call from a function of the history so far, so a cluster may answer the same call differently later.
- S3: a HEAD, PUT or GET is one atomic request; the layout is a function of the digest, references are plain and digests are sha256; the index key lies outside `oci/` and `blobs/`; nothing is deleted. Bucket credentials, presigned URLs' expiry, `shellEscape` and the image tagging at the end of the script are left out.
- Index.CacheIndex.Upsert: leaves the order of entries with equal references open, as an unstable sort does.
- Docker host: the TLS handshake and both daemons' answers are one step that can only succeed when the client files are the guest's and the certificates have not expired. Image downloads, cloud-init templates, the idle script and qemu itself are not part of this model. `ensureDisk` refusing an existing disk and a teardown that could not delete the disk are (`leftover`).
- Recovery.ExportsOnlyTheRunningGuest: Env is read as one snapshot, while the code reads the state file before it looks for the process.
- Recovery.ProvisionRecovers: assumes that external steps succeed or fall through to creating a guest.
- Protocols are state machines on values rather than classes, because a process can be killed between any two effects and readers see every intermediate state.
- Envsubst: the walk over Go values by reflection is modelled on value trees, so what a failed Apply has already changed in place, unexported fields, and the paths in messages are left out. Map entries are visited in the order they are listed.
- Shell: the tokenizer rejects lines with expansions, operators, patterns or double quotes instead of interpreting them; reserved words, which the built lines never start with, are ordinary words.
- Shquote.UnitNameIff: shows that contexts can share a timer unit; the at(1) marker is searched as a substring, so it is no sharper.
- Kubeconfig: keys match in their exact spelling, whereas Go's decoder also accepts other capitalisation; numbers in generic maps are kept as written. Symlinks, permissions, the lock's timeout and kubectl, which does not take the lock, are left out. A power loss tears unsynced data but does not undo a rename.
- KubeCodec.DecodeEncode: is about keys in their exact spelling.
- KubeCodec.ParseThenSave: likewise; a key in other capitalisation would fill the field and be written twice.
- KubeStore.NoImportIsLost and KubeStore.ForeignSurvives: are about imports of one default context, cluster and user, as k3s writes them.
- Manifest.RenderStreamIs: reading and writing one YAML document are parameters; the controller's Deployment is assumed to read back as it was written.
- Lifetime: each command is one step. Timers fire exactly in `Lifetime.ActsInTime`; at(1)'s own rounding to the start of a minute is not part of this model, nor are `status` and the cloud flags.
- Gateway: what a line says about matches, backends and redirects, whether a listener is programmed, and the client address settings are left out: they are field copies.
- Summary.CollectHosts: the library sort is an insertion sort on distinct names.
- GleSYS: commands of one cluster run one after the other; releasing an address succeeds unless a server uses it, and a failed call has created nothing. Provision starts only when nothing of the cluster is left, since it overwrites the sidecar of an earlier failed attempt. No other context's name starts with this one's worker prefix: the name fallback would take its servers for workers. Resuming changes no server, address or id and is left out.
- Not modelled because they would only add easy members: configuration defaults, port validation, size parsing, image reference helpers, manifest staging, inventory records.
- `images.Cache` under concurrent pullers, and the kubectl, ssh, multipass, Hetzner and minio plumbing.
