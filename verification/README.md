# virtwork in Dafny

virtwork deploys synthetic workloads as KubeVirt virtual machines, waits for them, records what it did in an audit
database, and later removes everything again by label. This project models that program and proves what it is
meant to guarantee: for every interleaving of its goroutines, every failing, lost or cancelled call, and every input.

`dafny verify dfyconfig.toml` checks all of it.

## The parts

| file | what it is about |
|---|---|
| `Cluster.dfy` | the API server as a map from keys to objects; calls that are served, turned away, or served with their reply lost |
| `RunProtocol.dfy` | a run as a state machine: namespace, services, the group of secret goroutines, the group of VM goroutines, the wait |
| `RunOrchestration.dfy`, `Resources.dfy`, `Retry.dfy` | the code behind the steps, as methods over the API server |
| `RunSafety.dfy`, `RunProgress.dfy` | the invariant of every reachable state; no run is stuck and every run ends |
| `Cleanup.dfy`, `CleanupLaws.dfy` | `CleanupAll` and `PreviewCleanup`; what is removed, what is reported |
| `Undo.dfy` | a run followed by a cleanup for its run id |
| `DryRun.dfy` | what the dry run prints against what a run creates |
| `RunObjects.dfy` | the objects of a run and of a dry run, field by field, from configuration and manifests |
| `Planner.dfy`, `PlanLaws.dfy`, `DiskWiring.dfy`, `VolumeNames.dfy`, `Naming.dfy` | VM plans, names, labels, service selectors; every plan at its position, the counts by role, the rows and the error; disks, volumes and templates; the DataVolume names of a whole run |
| `Readiness.dfy`, `Statuses.dfy` | polling, the goroutines of the wait, the workload rows they decide, and a whole run from planning to its return |
| `Migration.dfy`, `AuditDeletion.dfy`, `CleanupAudit.dfy`, `CrossMarks.dfy` | schema migrations; the query that marks rows as deleted, parsed and executed; the audit trail of a cleanup; rows marked for the wrong run |
| `Templating.dfy`, `ParamParser.dfy`, `EditDistance.dfy` | placeholders, `--params`, and "did you mean?" |

Concurrency is a choice of steps: a step is one API call or one scheduling decision, and the theorems quantify over
all sequences of enabled steps. Failures are values: each call is given the fault it meets, and the theorems quantify
over the faults. Where the code is a loop or updates fields, the model is a method with that loop or a class with
those fields, proved against a function whose properties are then proved as lemmas.

## What does not hold, and exactly when it does

- VM names are pairwise distinct exactly when the name prefixes are (`Planner.PlannedNamesDistinct`). A catalog entry
  `network-server`, a repeated role or `--workloads cpu,cpu` makes two prefixes equal.
- Cleanup by run id undoes a run exactly when nothing in the namespace was a target of it beforehand
  (`Undo.CleanupUndoesRun`). Without an audit database the run id is empty, and then every managed object is a target
  (`Undo.WhenNothingIsTargeted`).
- A cleanup in dry-run mode changes the cluster exactly when it is also asked to delete an existing namespace and the
  server takes the call (`CleanupLaws.DryRunIsDryIff`): that call carries no dry-run option. The cleanup command
  returns after the preview in a dry run, so this concerns callers of the package.
- Substituting parameters one after the other is the same as substituting them at once, and leaves no placeholder, in
  every validated template, exactly when the values are tame (`Templating.SafeIffTame`); non-empty brace-free values are.
  That is for non-empty keys without braces, which loading a manifest does not ask for. A key that the placeholder
  expression never matches, such as the empty one, is safe only with its own pattern as its value
  (`Templating.UnmatchedKeySafeIff`).
- A catalog service with a role selector reaches other workloads' VMs as soon as one of them has that role
  (`Planner.CatalogServiceReach`), and so does the iperf3 service for the role "server"
  (`Planner.BuiltInServiceReach`).
- Names and run ids are matched crosswise when rows are marked as deleted. No cleanup of a cluster marks another run's
  row, whatever it meets and whatever the tables hold, exactly when all targets are of the one run that is found
  (`CrossMarks.CrossMarksIff`). A cleanup with a run id filter never does (`CrossMarks.FilteredHitsOwnOnly`); two runs
  cleaned up together do (`CrossMarks.TwoRunsMarkCrosswise`).
- A cleanup in which a list call fails marks nothing in the audit database, whatever it has deleted by then
  (`CleanupAudit.Execute`).
- The workloads marked failed after the wait are those with a VM that failed exactly when no two workloads share a VM
  name (`Statuses.FailedAreTheOwnersIff`); the first row of a workload that is requested twice stays pending
  (`Statuses.RepeatedWorkloadStaysPending`), and so do all rows when the services or secrets cannot be created
  (`Statuses.FinishRun`).
- The dry run does not look at the size of cloud-init texts, so a run that fails on it was not foretold
  (`DryRun.CleanRunSucceedsIff`).
- The DataVolume names of a run are pairwise distinct exactly when the texts template-name + "-" + VM-prefix are
  (`VolumeNames.VolumeNamesDistinct`). Within one workload role they always are
  (`DiskWiring.TemplatesDifferAcrossVMs`); two accepted catalog entries whose VMs have different names can still share a
  DataVolume (`VolumeNames.TemplatesMeetAcrossWorkloads`).
- A core count of 2^32 or more is cut to 32 bits (`DiskWiring.CoresKeptIffTheyFit`).
- `closestMatch` returns "" also when the best candidate is itself empty (`EditDistance.ClosestMatch`).

## Model

| member | source | states |
|---|---|---|
| RunSafety.EveryRunIsSafe | internal/orchestrator/orchestrator.go:397-591 | in every state that any interleaving, failure, lost reply or cancellation leads to: objects that were there are untouched, new ones carry this run's labels, each new VM boots from the secret named after it and only that, which exists; a VM goroutine has started only if all secrets are there; the goroutines of a group start in order and the active ones stay within their limits |
| RunSafety.SuccessMeansDeployed | internal/orchestrator/orchestrator.go:67-184 | a run that returns without error has left every service, secret and VM in the cluster, its counters say so, and if it was to wait every VM was seen running in time |
| RunSafety.EndTellsHowFar | internal/orchestrator/orchestrator.go:151-174 | each way of coming back tells how far the run got: no secret was begun, no VM was begun, a VM failed, or all VMs are there; past its first stage the run has its labelled namespace |
| RunSafety.NothingAfterAFailure | internal/orchestrator/orchestrator.go:518-590 | once a VM goroutine has failed, or the context is cancelled while VMs are created, nothing more is created, whatever the other goroutines do |
| RunObjects.EveryObjectIsAsked | internal/orchestrator/orchestrator.go:397-591 | in every reachable state each object the run has created is one that the inputs ask for: a VM with the configured image, memory, cores and labels, its role's disks with their serials and DataVolumes with their sizes; a secret with its role's cloud-init text; a service with the declared name, selector and ports |
| RunObjects.EveryRequestIsMet | internal/orchestrator/orchestrator.go:67-184 | when the run returns without error, every VM of every role of every requested workload is in the cluster with its secret, and the service of each that declares one |
| RunObjects.EverythingPrintedIsAsked | internal/orchestrator/orchestrator.go:685-791 | the same of every object that a dry run prints |
| RunSafety.StepKeeps | internal/orchestrator/orchestrator.go:459-591 | every step of the protocol keeps the whole invariant |
| RunSafety.MadeIsOurs | internal/orchestrator/orchestrator.go:407-483 | whatever a run means to create lies in its namespace and carries the managed-by and run-id labels that cleanup selects on |
| RunSafety.OwnSecretOnly | internal/vm/vm.go:85-113 | a VM built for a plan takes cloud-init data from the secret named after the VM and from no other |
| RunSafety.StepMovesOneTask | internal/orchestrator/orchestrator.go:465-590 | a step moves at most one goroutine, and none of the other group |
| RunProgress.EveryRunEnds | internal/orchestrator/orchestrator.go:67-184 | with p planned VMs and w workloads no run takes more than 16p + w + 7 steps, retries and cancellation included |
| RunProgress.StuckMeansReturned | internal/orchestrator/orchestrator.go:459-591 | a reachable state in which only a cancellation is possible has returned: the limits never block a group for good |
| RunProgress.StepMovesOn | internal/orchestrator/orchestrator.go:459-591 | every step decreases a measure of the work left |
| RunProgress.TurnsAreAttempts | internal/orchestrator/orchestrator.go:524-555 | a VM goroutine taken turn by turn leaves the store, and succeeds, as the retry loop of CreateVM does |
| RunOrchestration.Run.constructor | internal/orchestrator/orchestrator.go:47-61 | a run begins in the initial state of the protocol |
| RunOrchestration.Run.CreateResources | internal/orchestrator/orchestrator.go:397-457 | the loop over namespace and services, in whatever order, is a sequence of protocol steps that meet exactly the given faults and end past the services, all counted, or in the error return |
| RunOrchestration.Run.SecretTurn | internal/orchestrator/orchestrator.go:472-503 | the secret goroutine's body is the protocol's step: size check, idempotent create, secret name written into the plan only on success |
| RunOrchestration.Run.VMTurn | internal/orchestrator/orchestrator.go:524-588 | the VM goroutine's body is the protocol's step: build from the recorded secret name, look at the context, one attempt |
| Resources.EnsureNamespace | internal/resources/resources.go:24-45 | create, or fetch and patch the labels in |
| Resources.EnsuringIsGentle | internal/resources/resources.go:24-45 | whatever its calls meet, only the namespace changes and it loses no label; it succeeds exactly when the namespace could be created, or read and patched, and then the wanted labels are there and a second call changes nothing |
| Resources.CreateService | internal/resources/resources.go:49-55 | success means the service is there, and an existing one is left as it was |
| Resources.CreateCloudInitSecret | internal/resources/resources.go:60-87 | a text over 1 MiB never reaches the server; success means the secret is there, and an existing one is left as it was |
| Retry.RetryOnTransient | internal/vm/vm.go:267-293 | the loop over attempts with its context checks and backoffs equals the recursion the lemmas below are about |
| Retry.AttemptsWriteOnce | internal/vm/vm.go:267-293 | however many attempts were applied with their replies lost, the store is as before or as after one write; success means after |
| Retry.AttemptsStopInTime | internal/vm/vm.go:267-293 | at most maxRetries + 1 calls, none after success or after an error that is not transient; success exactly when the last reply settles the write |
| Retry.AttemptsFollowScript | internal/vm/vm.go:267-301 | call by call: none once the context is found cancelled; another exactly after one of the four transient errors, an undisturbed pause and attempts left; the outcome is that of the last reply or of the cancellation |
| Retry.AttemptsSleepExactly | internal/vm/vm.go:282-289 | the backoffs double from base * 2^n on, one for each call that is followed by another or by a cancellation, and add up to exactly that |
| Retry.AttemptsSleepBounded | internal/vm/vm.go:282-289 | the backoffs from attempt n on add up to at most base * (2^maxRetries - 2^n) |
| Retry.AttemptsReachSuccess | internal/vm/vm.go:267-293 | transient errors only, then an undisturbed attempt within the limit, give success |
| Retry.Create | internal/vm/vm.go:205-214 | CreateVM: at most one effect, an existing VM untouched, at most six calls and 31 base backoffs, the VM there on success |
| Undo.CleanupUndoesRun | internal/cleanup/cleanup.go:130-270 | any state of any run, any number of cleanups however they end, then one without errors: the cluster is as it was before the run, bar the namespace object, exactly when nothing in it was a target to begin with |
| Undo.WhenNothingIsTargeted | internal/audit/audit.go:418-424 | a fresh non-empty run id targets nothing old; the empty one targets nothing exactly when no managed object is in the namespace |
| Undo.AttemptsConverge | internal/cleanup/cleanup.go:130-270 | cleanups that failed half-way do not change what an error-free one leaves |
| Cleanup.CleanupAll | internal/cleanup/cleanup.go:130-270 | five listed kinds in order, errors collected, NotFound skipped, an early return exactly at the first kind whose list call fails, the namespace last and without the dry-run option |
| Cleanup.TargetedMeans | internal/cleanup/cleanup.go:138-144 | what a cleanup is after: the objects of five kinds in the namespace with the managed-by label, and with the run id's label when there is a run id |
| Cleanup.SweepKind | internal/cleanup/cleanup.go:154-173 | one kind: list, collect run ids, delete, count, name |
| Cleanup.PreviewCleanup | internal/cleanup/cleanup.go:52-124 | the counts are the numbers of targets of each kind, the run ids those on the targets; an error exactly when a list call fails; nothing is modified |
| CleanupLaws.CleanupAccounts | internal/cleanup/cleanup.go:130-270 | when no list fails, the targets of each kind at the start split exactly into confirmed deletions, missing and errored ones; counter and names are the confirmed ones; the run ids are those on all targets |
| CleanupLaws.ErrorsAreAccounted | internal/cleanup/cleanup.go:163-267 | one error for each call that got no reply of its own, the namespace's last; the namespace counts as deleted exactly when it was there and its deletion was asked for and confirmed |
| CleanupLaws.FailedCleanupAccounts | internal/cleanup/cleanup.go:152-246 | a cleanup that cannot list a kind reports the kinds before it as they were deleted, and nothing of that kind and the later ones, which it leaves alone |
| CleanupLaws.CleanupSparesOthers | internal/cleanup/cleanup.go:130-270 | however a cleanup ends, only targets are gone, and the namespace if that was asked for |
| CleanupLaws.ErrorFreeCleanupIsComplete | internal/cleanup/cleanup.go:130-270 | a cleanup without errors and not in dry-run mode leaves exactly the objects that are not targets |
| CleanupLaws.PreviewForetells | internal/cleanup/cleanup.go:52-124 | on the same cluster each count is at most the previewed one, equal exactly when every deletion is confirmed; the run ids always agree |
| CleanupLaws.DryRunIsDryIff | internal/cleanup/cleanup.go:147-267 | a dry-run cleanup left alone by others changes nothing, exactly unless it really deletes an existing namespace |
| CleanupLaws.SweptStore | internal/cleanup/cleanup.go:163-173 | after a pass exactly those listed objects are gone that another client removed, or whose delete call was not turned away |
| CleanupLaws.SweptDeleted | internal/cleanup/cleanup.go:163-173 | the names reported are those of the objects whose deletion was confirmed, in order |
| CleanupLaws.SweptErrors | internal/cleanup/cleanup.go:163-173 | one error for each call that got no reply of its own, naming the object |
| CleanupLaws.PassedTargets | internal/cleanup/cleanup.go:152-246 | each pass lists the targets of its kind as they were when cleanup began, and only targets go |
| CleanupLaws.CleanupConverges | internal/cleanup/cleanup.go:130-270 | a store that lacks only targets leaves the same remainder |
| DryRun.PrintDryRun | internal/orchestrator/orchestrator.go:685-791 | prints all services in some order, then all secrets, then all VMs; fails exactly when a VM cannot be built, having printed what comes before it; counts what it prints |
| DryRun.DryRunShowsTheRun | internal/orchestrator/orchestrator.go:128-149 | for distinct names that are still free, every successful run has created exactly the printed objects, field by field, with the same counts |
| DryRun.CleanRunSucceedsIff | internal/orchestrator/orchestrator.go:128-184 | when no call fails and every VM waited for comes up in time, the run succeeds exactly when the dry run does and every cloud-init text fits a Secret |
| DryRun.PrintedIsMade | internal/orchestrator/orchestrator.go:685-791 | an object is printed exactly when the run means to create it |
| Planner.PlanVMs | internal/orchestrator/orchestrator.go:186-395 | the loop over workloads, roles and numbers with its error returns equals the planning function, whose plans, rows, instances and errors `PlanLaws` determines |
| Planner.VMCount | internal/workloads/generic_multi.go:72-91 | the accumulated count is the sum of the counts of the workload's groups, which are the roles' own by `PlanLaws.SlotIsGroup` |
| PlanLaws.PlanAt | internal/orchestrator/orchestrator.go:288-392 | the plan position by position: VM i of role k of the n-th request comes after the VMs of all before it, is named from workload, role and number, and there are no others |
| PlanLaws.RolesAreCounted | internal/workloads/generic_multi.go:72-82 | for every workload and role, per request, as many VMs as its roles of that name ask for: their own count when positive, else the file's, else the flag's, and at least one; none for a disabled workload |
| PlanLaws.PlanningRecords | internal/orchestrator/orchestrator.go:251-286 | one row per planned request in order, with its VMs and the cores and memory of the file's entry or else of the run; exactly the planned workloads are kept for their services |
| PlanLaws.PlanErrorIsFirst | internal/orchestrator/orchestrator.go:246-266 | planning stops at the first request that cannot be planned, and the error tells which of the four faults it has, and the first role without a cloud-init text |
| Planner.PlanningConserves | internal/orchestrator/orchestrator.go:202-394 | names in plan order; for each workload as many plans as recorded, also when requested twice; every plan labelled for the run |
| Planner.PlansFollowConfig | internal/orchestrator/orchestrator.go:202-394 | every planned VM has the image, its role's cloud-init text, and the cores and memory of the file's entry for the workload or else of the run; no disabled workload has a VM |
| Planner.PlannedNamesDistinct | internal/orchestrator/orchestrator.go:288-392 | the VM names are pairwise distinct exactly when the prefixes are |
| Planner.RoleShadowedByWorkload | internal/orchestrator/orchestrator.go:345 | with an entry named after a workload and its role, planning succeeds and names two VMs alike |
| Planner.PlanningSucceedsIff | internal/orchestrator/orchestrator.go:202-394 | planning fails exactly when a requested workload is unknown, has refused parameters, an invalid size or a role without cloud-init text, and is not disabled |
| Planner.PlannedVMsAreWired | internal/orchestrator/orchestrator.go:297-331 | over a registry of built-in workloads and validated entries every VM that can be built from the plans has its disks, volumes and templates consistent |
| Planner.CatalogServiceReach | internal/workloads/catalog.go:249-276 | a catalog service reaches only its own workload exactly when it has no role selector or no other planned workload has that role |
| Planner.BuiltInServiceReach | internal/workloads/network.go:100-125 | the iperf3 service reaches every "server" of any workload, the tps service only those of tps |
| Naming.DecimalMeans | internal/orchestrator/orchestrator.go:295 | the digits of a VM's number stand for that number, without a leading zero |
| Naming.NumberedInjective | internal/orchestrator/orchestrator.go:295 | a numbered name determines its prefix and its number |
| DiskWiring.ValidateManifest | internal/workloads/catalog.go:188-230 | no error exactly when the manifest is acceptable; an error names its first fault, entry by entry and check by check |
| DiskWiring.UpperMeans | internal/workloads/catalog.go:222-236 | protocols are told apart without regard to case |
| DiskWiring.StorageIsDeclared | internal/workloads/generic.go:101-153 | a registered workload's disks, volumes and templates are those it declares, with their serials and sizes, and are refused exactly for a size that is no quantity |
| DiskWiring.AcceptedStorageIsWired | internal/workloads/generic.go:101-153 | an accepted manifest gives paired, distinct disk and volume names, resolving references and no reserved name |
| DiskWiring.ExtraDisks | internal/workloads/generic.go:117-134 | one disk per storage entry, in order |
| DiskWiring.ExtraVolumes | internal/workloads/generic.go:137-153 | one volume per storage entry, referring to its template |
| DiskWiring.DataVolumeTemplates | internal/workloads/generic.go:101-114 | one template per entry, or an error exactly when a size is no quantity |
| DiskWiring.NamespaceDataVolumes | internal/orchestrator/types.go:47-80 | templates renamed for the VM, and exactly the references to them with them |
| DiskWiring.RenamedForVM | internal/orchestrator/types.go:47-80 | the VM's name comes behind each template's name and each reference to a template; disks, sizes and other references stay |
| DiskWiring.RenamingKeepsWiring | internal/orchestrator/types.go:47-80 | renaming keeps pairing, distinctness and references |
| DiskWiring.TemplatesDifferAcrossVMs | internal/orchestrator/types.go:55-63 | two VMs of one role never share a DataVolume name |
| DiskWiring.RegisteredStorageIsWired | internal/workloads/disk.go:141-176 | whatever storage a registered workload can have, none, a data disk or that of a validated manifest, is well wired |
| VolumeNames.VolumeNamesDistinct | internal/orchestrator/orchestrator.go:288-392 | no two planned VMs, of whatever workloads, and no two disks of one VM share a DataVolume name, exactly when all stems template-name + "-" + prefix differ |
| VolumeNames.NamesMeetIff | internal/orchestrator/types.go:55-63 | two DataVolume names are equal exactly when their VM numbers and their stems are |
| VolumeNames.TemplatesMeetAcrossWorkloads | internal/orchestrator/types.go:55-63 | two entries that pass validation and can be planned together, with distinct VM names and a shared DataVolume name |
| DiskWiring.BuildsIff | internal/vm/vm.go:52-67 | a VM is built exactly when name, namespace, image and secret name are given, cores are positive and the memory is a quantity; else the error is that of the first check that fails |
| DiskWiring.BuiltVMIsAsAsked | internal/vm/vm.go:71-159 | a built VM has the labels and memory asked for, boots from the one image asked for, and has the storage's disks, volumes and templates in order behind its own two |
| DiskWiring.CatalogVMIsWired | internal/vm/vm.go:71-113 | from an accepted manifest to the VM: names equal position by position and distinct, references resolved, and behind the two disks of every VM each entry's name, serial, size and renamed DataVolume |
| DiskWiring.CoresKeptIffTheyFit | internal/vm/vm.go:140 | a built VM has the cores asked for exactly when they fit 32 bits |
| Readiness.WaitForVMReady | internal/wait/wait.go:27-72 | the outcome is ready, an error, a panic, a timeout or a cancellation exactly when the first turn that does not find the VM missing or not yet running, in time and undisturbed, is one that ends so; with pauses at most floor(timeout / interval) + 1 looks |
| Readiness.EveryWaitIsReported | internal/wait/wait.go:77-109 | under every interleaving the results have exactly the given names, each is the outcome of a wait for that VM, for distinct names the one and only verdict of its own wait; panics included |
| Readiness.AllReadyWereSeen | internal/wait/wait.go:77-109 | when all results are nil every VM has been seen running before its deadline |
| Readiness.ComingUpIsReady | internal/wait/wait.go:77-109 | when every VM comes up in time all results are nil, under every interleaving; for distinct names only then |
| Readiness.TakeKeeps | internal/wait/wait.go:90-105 | every step keeps the lock exclusive, the goroutines honest and the results theirs |
| Readiness.EveryWaitEnds | internal/wait/wait.go:77-109 | a bound on the steps of all goroutines together |
| Readiness.NeverDeadlocked | internal/wait/wait.go:77-109 | until all have exited some goroutine can go on |
| Readiness.FinishWait | internal/wait/wait.go:77-109 | from every state that keeps the invariant all goroutines can be brought to their end |
| Statuses.WaitForReadiness | internal/orchestrator/orchestrator.go:593-682 | no error exactly when all are ready or nothing is waited for; else every row of the run is given its status once, where the write succeeds, and no other row changes |
| Statuses.FinishRun | internal/orchestrator/orchestrator.go:128-176 | along every way out of Run, the dry run included: what it returns, and which rows become failed or created, each at most once |
| Statuses.RunWithoutError | internal/orchestrator/orchestrator.go:67-184 | when Run returns without error from a deployment, every service, secret and VM is in the cluster, every VM was seen running in time if it was to wait, and every workload's last row is created |
| Statuses.RunWithError | internal/orchestrator/orchestrator.go:151-174 | when Run returns with an error from a deployment: every workload is failed after a VM that could not be created; those with a VM that did not come up are, and the others created, as long as no two share a VM name; no row changes when services or secrets could not be created |
| Statuses.FailedAreTheOwnersIff | internal/orchestrator/orchestrator.go:604-676 | the workloads marked failed are those with a failed VM, whatever the results, exactly when no two workloads share a VM name |
| Statuses.PlanningFits | internal/orchestrator/orchestrator.go:268-286 | the row ids lead each workload to its last row, and every plan has one |
| Statuses.RepeatedWorkloadStaysPending | internal/orchestrator/orchestrator.go:268-286 | a row is out of reach of the final statuses exactly when a later row has the same workload |
| Migration.Database.MigrateDB | internal/audit/migrate.go:22-64 | the loop over migrations with its transactions, under any fault of any statement |
| Migration.OpenKeeps | internal/audit/migrate.go:22-64 | one open keeps "migrations 0 .. version-1 once each, in order"; without error it ends at max(version, count) |
| Migration.EveryHistoryIsExactlyOnce | internal/audit/migrate.go:22-64 | after any history of crashes, failures and re-opens a migration is in effect exactly when the version has passed it, and then once |
| Migration.OpenTells | internal/audit/migrate.go:22-64 | the outcome of an open is that of the first of its statements that fails or during which the process dies |
| Migration.CleanOpenCompletes | internal/audit/migrate.go:22-64 | after any history a failure-free open completes the schema and the next open changes nothing |
| AuditDeletion.BuildMarkDeletedQuery | internal/audit/audit.go:357-393 | as many parameters as arguments; for the table and column of its callers the text, parsed and bound by position, marks exactly the rows with a given name, namespace, run id and type and changes no other table; a missing column is refused |
| AuditDeletion.QueryMeaning | internal/audit/audit.go:376-392 | the same of the query text, for all tables and executions |
| AuditDeletion.TextParses | internal/audit/audit.go:376-390 | the text of such a statement is read as that statement and as no other |
| CleanupAudit.AuditDb.MarkVMsDeletedByName | internal/audit/audit.go:322-337 | the VM table after the call, written or not; the resource table is left alone |
| CleanupAudit.AuditDb.MarkResourcesDeletedByName | internal/audit/audit.go:339-355 | the resource table after the call, written or not; the VM table is left alone |
| CleanupAudit.MarkDeletionsInAudit | internal/orchestrator/cleanup.go:126-173 | both tables after all five markings, under any write faults; `CleanupAudit.TypeOfKind` ties each marking to its kind's resource type |
| CleanupAudit.Execute | internal/orchestrator/cleanup.go:62-124 | a cleanup whose list call fails records its start and nothing else; any other is followed by the link to its runs, the marking, the counts and the end event |
| CleanupAudit.SummaryIsTrue | internal/orchestrator/cleanup.go:88-110 | the run ids a cleanup is linked to are those on the targets it found, its counts those of the confirmed deletions |
| CleanupAudit.DeletionsAreMarked | internal/orchestrator/cleanup.go:62-173 | every row that a deleted object's own run wrote about it, under the resource type of its kind, is marked with the time of that marking, if that write succeeds |
| CleanupAudit.MarkedWasDeleted | internal/orchestrator/cleanup.go:62-173 | every row that changes is of the type and name of an object whose deletion was confirmed and which is gone, unless in a dry run; with a filter the row is of that run |
| CrossMarks.CrossMarksIff | internal/orchestrator/cleanup.go:126-173 | no cleanup of a cluster, whatever it meets, hits another run's row, exactly when every target of the kind carries every run id found on a target |
| CrossMarks.HitsAreOwnIff | internal/audit/audit.go:376-382 | the same of one cleanup: exactly when each deleted object carries each collected run id |
| CrossMarks.FilteredHitsOwnOnly | internal/cleanup/cleanup.go:139-144 | a cleanup filtered by run id never hits another run's row |
| CrossMarks.FilteredHasOneRunID | internal/cleanup/cleanup.go:139-144 | each object it deletes carries the one run id it collects |
| CrossMarks.TwoRunsMarkCrosswise | internal/orchestrator/cleanup.go:126-173 | two runs cleaned up together: a row of the second is marked for a VM of the first |
| CrossMarks.ServedCleanup | internal/cleanup/cleanup.go:130-270 | every cluster has a cleanup that goes through without any failure |
| Templating.MatchesIff | internal/workloads/catalog.go:149 | the placeholder expression matches exactly the patterns of non-empty keys without a closing brace |
| Templating.PlaceholdersAreMatches | internal/workloads/catalog.go:159-166 | the keys found are those of all matches from left to right, repeated ones included, each begun behind the end of the last |
| Templating.GetParamIsFirstMatch | internal/workloads/workload.go:89-101 | the override when present and not empty, else the default of the first declaration of the key |
| Templating.SubstituteParams | internal/workloads/generic.go:165-170 | for validated templates and tame values the loop equals one simultaneous substitution and leaves no placeholder |
| Templating.SequentialIsSimultaneous | internal/workloads/generic.go:165-170 | the same as a law of the substitution function |
| Templating.OrderDoesNotMatter | internal/workloads/generic.go:165-170 | schemas that resolve alike substitute alike, in any order |
| Templating.EarlierValuesAreSearched | internal/workloads/generic.go:165-170 | where values are not tame the order counts: a later key is found in the value of an earlier one, and not the other way round |
| Templating.SafeIffTame | internal/workloads/generic.go:165-170 | for well-formed keys, sequential equals simultaneous, placeholder-free, in every validated template exactly when all values are tame |
| Templating.UnmatchedKeySafeIff | internal/workloads/generic.go:165-170 | a key that the placeholder expression never matches is safe exactly when its value is its own pattern |
| Templating.BraceFreeIsTame | internal/workloads/catalog.go:149 | a non-empty value without braces is tame |
| Templating.ValidatePlaceholders | internal/workloads/catalog.go:151-180 | one error per undeclared match in the leftmost scan, warnings for the declared keys never used, no error exactly when every file is validated |
| ParamParser.ParseParams | internal/config/config.go:292-327 | the loop over segments with its first-cut rules and errors equals the parsing function |
| ParamParser.TrimmingIsExact | internal/config/config.go:293-300 | trimming takes away the white space around a text, all of it, and nothing else |
| ParamParser.PairIsJudged | internal/config/config.go:304-319 | a segment is read as an entry exactly when it is that entry's text, and refused with an error exactly when it has that fault |
| ParamParser.PaddedPairsParse | internal/config/config.go:292-327 | pairs with any white space around them and any blank segments between them are read as the bare pairs are; of two pairs for one key the later counts |
| ParamParser.FirstFaultDecides | internal/config/config.go:292-327 | the first faulty pair decides the error, whatever comes before or after it |
| ParamParser.RoundTrip | internal/config/config.go:292-327 | printing a map's entries in any order and parsing gives the map back exactly when the map is legal |
| ParamParser.OnlyLegalParamsAreParsed | internal/config/config.go:292-327 | whatever is parsed is legal |
| ParamParser.MergeParams | internal/config/config.go:267-281 | a parameter from the command line wins over the file's, all others and all other settings stay |
| EditDistance.Levenshtein | internal/workloads/registry.go:227-254 | the two swapped rows yield the least number of edits over all scripts |
| EditDistance.TableIsDistance | internal/workloads/registry.go:227-254 | the table entry is the minimum over all scripts of edits at any positions in any order |
| EditDistance.DistanceIsMetric | internal/workloads/registry.go:227-254 | zero exactly for equal strings, symmetric, triangle inequality |
| EditDistance.ClosestMatch | internal/workloads/registry.go:214-225 | the first candidate of least distance within half the input's length, "" if there is none |

## Left out

- Built-in workloads' scripts, cloud-config YAML, `tps` size parsing, parameter types: cloud-init text is an abstract value.
- Flags, environment, viper, logging, kubeconfig, the confirmation prompt, and reading catalog files from disk.
- `ValidateWorkloadNames`, `ValidateParams`: the check of parameter values is a parameter of planning, and the
  suggestions are `ClosestMatch`.
- `DeleteManagedSecrets` and `DeleteManagedServices`: the same loop as one pass of `CleanupAll`.
- Controllers: a VM brings no VMI, DataVolume or PVC into being, and a deleted namespace does not take its contents
  along. What other clients do is limited to removing listed objects before cleanup does, and to VMs under retry.
- `resource.ParseQuantity` is a parameter; run ids and timestamps are given values. SQLite transactions are atomic.
- Audit writes during a run other than workload statuses, the messages of events, `CompleteExecution`, and concurrent
  use of one audit database.
- Go's strings are bytes: a `char` stands for one byte in edit distances and Secret sizes and for one code point in
  `ParseParams`.
- EditDistance.Levenshtein: computes on unbounded integers, where the code has machine integers no shorter than the strings.
- DiskWiring.NamespaceDataVolumes: works on values, so that the shared inputs stay unchanged is built in and not stated.
- Readiness.WaitForVMReady: without pauses between the looks it takes for granted that the clock goes past the deadline,
  and promises no number of looks.
- Templating.SafeIffTame: asks for non-empty keys without braces; for other keys `Templating.UnmatchedKeySafeIff` tells
  what a single parameter does, and how several of them interfere is not stated.
- Statuses.FinishRun: takes the rows as recorded; a workload whose row could not be inserted has none.
- Retry.RetryOnTransient: counts an interrupted backoff in full, so the bound on sleeping is an upper bound.
- RunSafety.EveryRunIsSafe: takes a look at the context and the call after it as one step; a call that is cancelled
  under way is one that is turned away or whose reply is lost.
- Templating.ValidatePlaceholders: the sorted lists are modelled by their contents, errors as a multiset and warnings as a set.
- CleanupAudit.Execute: leaves the messages of its two events aside.
