# The bpfman agent's reconciler and its finalizer protocol

bpfman-operator keeps eBPF programs loaded and attached on every node of a cluster. A user writes a
`ClusterBpfApplication`; one agent per node loads its programs through the bpfman daemon, attaches them
where the spec asks, and records what it did in a `ClusterBpfApplicationState` object; the operator folds the
records of all nodes into one condition and guards the application with a finalizer until every node has let
go. This project models that system in Dafny and proves what it keeps: which links are attached, what is
recorded, what Success means, when reconciling stops changing things, and that nothing is left loaded behind
a deleted application.

The code that works in place is modelled by classes and loops (`Daemons.Bpfman`, `NetNs.NetNsCache`,
`Expansion.InterfaceDiscovery`, `ProgramReconcilers.ProgramReconciler`,
`ApplicationReconcilers.ApplicationReconciler`, `Operator.ApplicationReconciler`, `MountInfo.IsMounted`).
Each method is proved to compute a specification function, and the properties are proved about those
functions: `Links.UpdateLinks`, `Programs.ReconcileProgram`, `Application.Visit` (one application in one
pass), `Pass.OnePass`, `Operator.Decide`, `Protocol.After` (one step of the whole cluster).

| file | contents |
|---|---|
| `types.dfy`, `daemon.dfy` | the stored objects; the daemon and its client |
| `links.dfy`, `expansion.dfy`, `programs.dfy`, `program_reconciler.dfy` | one program: expected links, matching, attaching and detaching |
| `attach_places.dfy`, `expected_points.dfy`, `held_places.dfy`, `visit_meanings.dfy` | what places, attachments, selection, entries and conditions mean, field by field |
| `application.dfy`, `application_proofs.dfy`, `visit_proofs.dfy`, `requests.dfy`, `evolution.dfy` | one application: load, unload, conditions, daemon calls |
| `pass.dfy`, `pass_proofs.dfy`, `application_reconciler.dfy`, `unselected.dfy`, `convergence.dfy` | one pass over all applications, and runs of passes |
| `operator.dfy`, `protocol.dfy`, `protocol_proofs.dfy`, `verdicts.dfy`, `settled.dfy`, `rounds.dfy`, `orphans.dfy`, `lifecycle.dfy` | the operator, interleavings of users, operator and agents, what the conditions mean, and how the cluster converges |
| `cache.dfy`, `netns.dfy`, `mountinfo.dfy` | the lagging object cache, the namespace-id cache, the mountinfo scanner |
| `limits.dfy`, `changed_programs.dfy`, `lost_writes.dfy`, `witnesses.dfy`, `lost_program.dfy` | where an unguarded claim is false, exactly when it holds, and inputs that show it |

## Assumptions

They are hypotheses of the theorems, or built into the model where said so.

- The daemon never reuses a program or link id, and an Attach, Detach or Load that fails has no effect (built
  into `Daemons`). Which calls fail is arbitrary: a daemon value carries the set of failing positions.
- Get fails only for a program that is not loaded, and a failed Unload means that the program is gone (built
  into `Daemons.LinkExists` and `Daemons.AfterUnload`), as the code itself takes them.
- Namespace paths resolve the same way throughout one pass (`Env.netns`); the cache in front of the lookup is
  proved to be transparent then, and its behaviour under changing filesystems is proved separately.
- The programs of a spec have distinct names (`DistinctSpecs`, `DistinctProgs`).
- An application's name is not reused while a state object or a running pass of the old one survives; the
  operator's finalizer is on an application before its deletion is requested; the lists that the operator and
  an agent read are current when they are read (both may act on them arbitrarily later). These are the guards
  of `Protocol.Allowed`.
- One reconcile runs at a time on a node.

## Where the code departs from what it says

- `Condition()` has no case for ProgramListChangedError, so the condition comes out with an empty type
  (`Application.Promote`), neither failing nor pending by the helpers, although IsBpfAppStateConditionFailure
  lists the type. `Limits.EmptyTypeIff` says exactly when it happens; edits of a program's type and of its traced
  function show it (`Witnesses.ChangedType`, `Witnesses.ChangedFunction`);
  `Verdicts.Proper` excludes such conditions. The schema in config/crd/bases does not accept a condition with
  an empty type, reason or status, so where it is installed the API server refuses the status: the record stays
  as it was, the operator never reads the empty type, and links attached in that visit are forgotten as
  `LostWrites.RefusedWriteIff` describes. Written or refused, the application blocks all applications behind it
  (`ChangedPrograms.UnfoundBlocksTheRest`).
- A comment in Reconcile says that the pass goes on to the next application after a failed load, because
  otherwise one bad application could block the rest. The error path passes no original to the status
  update, so it always writes and returns. `Limits.ErrorPathIff` says exactly when a visit takes it,
  `Limits.StuckBlocksTheRest` that an application that keeps taking it blocks all applications behind it, and
  `Witnesses.UnresolvedBlocks` shows it. Convergence needs loadable applications.
- On a node that a live application does not select, the programs are unloaded and then reconciled all the
  same, which dereferences a missing program id as soon as a link is expected: `VisitProofs.VisitPanics` says
  exactly when, `Witnesses.UnselectedPanics` shows it.
- An agent that reads an outdated list of applications can load the programs of one that has been released:
  `Limits.StaleListLoads`, `Witnesses.StaleListLoadsOne`; hence the guard on `AgentLists` in `Protocol.Allowed`.
- A status write that is refused after links were attached or programs loaded makes the agent forget them:
  `Witnesses.FailedWriteForgets` shows it, `LostWrites.RefusedWriteIff` and `LostWrites.RefusedNoneLost` say when,
  in terms of what is there before the pass: only if a link was going to be attached, or the programs loaded, and
  without failing calls exactly then.
- Reloading after the daemon lost only some programs leaves the others loaded without a record:
  `Limits.ReloadForgets` says exactly when, `LostProgram.ReloadForgetsOne` shows it.
- isNodeSelected fails on a node without labels, because the formatted empty label set does not convert back
  (`Application.Selected`): there every visit takes the error path.
- A creation whose wait fails, or whose first status write is refused, leaves a state object without programs,
  which no later pass repairs: `Limits.EmptyRecordIff`. The application then blocks those behind it for good.
- The first wait that misses a created object lets the next reconcile create a second one, after which all
  reads fail: `Cache.SecondCreationIff`, `Cache.FailedWaitDuplicates`. As long as it finds one there is at most
  one, whatever other waits and writes fail: `Cache.OneObject`.
- A state object created for an application that is already gone keeps its finalizer for ever:
  `Orphans.OrphansStay`; `Orphans.OrphanByPass` and `Orphans.OrphanByRelease` say when one comes about.

## Model

| member | source | states |
|---|---|---|
| Links.UpdateLinksRefines | controllers/bpfman-agent/cl_tc_program.go:155-201 | for any prior list and expected links, the loop equals one set comparison: prior entries keep place, uuid, link id and status and end up marked exactly when they are the first entry of an expected key; the missing keys are appended once each in first-appearance order |
| Links.MissingKeys | controllers/bpfman-agent/cl_tc_program.go:170-193 | the appended entries have exactly the expected keys that were not present, each resolvable and no two with one key |
| Links.UpdateLinksMarks | controllers/bpfman-agent/cl_tc_program.go:155-201 | afterwards the marks are those the list's own keys call for, and every expected key has an entry |
| Links.UpdateLinksStable | controllers/bpfman-agent/cl_tc_program.go:155-201 | a list that is already right is left as it is, whatever uuids were generated for the expected links |
| Links.OrderInsensitive | controllers/bpfman-agent/cl_xdp_program.go:144-190 | only the set of expected keys matters: marks on prior entries and the set of appended keys are the same for any order, multiplicity and uuids |
| Links.PermutedKeys | controllers/bpfman-agent/cl_xdp_program.go:303-312 | permuted expected links have the same keys |
| AttachPlaces.KeysIdentify | controllers/bpfman-agent/cl_tc_program.go:215-233 | two places whose namespaces resolve are identified if and only if they are the same kind of place with equal fields (for TC: interface, priority, direction and proceedOn), where a namespace path counts by the inode it leads to; the same for each of the nine kinds |
| AttachPlaces.FindLinkFindsPlace | controllers/bpfman-agent/cl_uprobe_program.go:163-179 | findLink returns the first entry at the same place in that sense, and nothing exactly if no entry is there |
| HeldPlaces.MarksByPlace | controllers/bpfman-agent/cl_tcx_program.go:120-166 | after updateLinks an entry is marked exactly if its namespace resolves, an expected link is at its place and it is the first entry there; every resolvable expected place has an entry |
| Expansion.StoreHoldsLatestAdded | cmd/bpfman-agent/main.go:191-212 | after any events the store holds an interface exactly if the last added-or-deleted event for it is an addition |
| Expansion.InterfaceDiscovery.Run | cmd/bpfman-agent/main.go:191-212 | the event loop leaves the store as folding the events does |
| Expansion.SetupAllowedInterfacesLists | controllers/bpfman-agent/common.go:296-316 | the loop splits the definitions into patterns and exact names and stops at the first pattern that does not compile |
| Expansion.DiscoveredExact | controllers/bpfman-agent/common.go:342-367 | the discovered list has no duplicates and, as a set, is the stored interfaces that pass the filters, mapped to name and namespace path |
| Expansion.GetDiscoveredInterfaces | controllers/bpfman-agent/common.go:342-367 | the loop with its seen map computes that list |
| AttachPlaces.PassesIff | controllers/bpfman-agent/common.go:287-340 | an interface passes exactly if its name is not excluded and either no definition up to the first pattern that does not compile counts, or one of those is its name, spaces around it aside, or a pattern that matches it |
| AttachPlaces.EmptyAllowsAll | controllers/bpfman-agent/common.go:318-340 | without allow list every interface passes that is not excluded |
| Expansion.GetOneContainerPerPod | controllers/bpfman-agent/containers.go:215-226 | the loop with its seen map computes the list described by OnePerPodExact |
| Expansion.OnePerPodExact | controllers/bpfman-agent/containers.go:215-226 | exactly one container for every pod that has one, and it is the pod's first |
| ExpectedPoints.ExpandInfoMeans | controllers/bpfman-agent/cl_tc_program.go:297-373 | an attachment expands to exactly the points it calls for, each of its own kind with its own direction, proceedOn, function, offset, target, pid and name, the default priority 1000 if it has none, and with every interface it names, has as primary one or discovers, on the host, in the first container of each pod or in the discovered namespace; it fails exactly if a container lookup fails or there is no interface |
| ExpectedPoints.ExpandMeans | controllers/bpfman-agent/cl_uprobe_program.go:273-329 | a spec expands exactly if each of its attachments does, and then to the points that some attachment calls for |
| ExpectedPoints.ExpandStops | controllers/bpfman-agent/cl_tc_program.go:165-180 | when an attachment cannot be expanded, what the ones before it call for is expected all the same, and nothing of the ones behind |
| ExpectedPoints.PathOfPidIff | controllers/bpfman-agent/common.go:652-654 | the namespace path of a process is /host/proc/, its pid in decimal, /ns/net, and no other |
| Expansion.ReorderedExpectation | controllers/bpfman-agent/common.go:342-367 | the random order of the interface map changes neither whether an expansion fails nor the set of expected places and keys |
| Expansion.PermutedInfos | controllers/bpfman-agent/cl_xdp_program.go:144-190 | permuting the attachments of a spec changes neither whether all expand nor, if they do, the expected keys |
| Programs.LinkAccounted | controllers/bpfman-agent/common.go:548-600 | reconciling one link, whatever fails, keeps the link accounting of its program and touches no other program |
| Programs.ProgramStanding | controllers/bpfman-agent/common.go:259-268 | so does reconciling a whole program: every link the daemon holds for it stays recorded by exactly one entry, and nothing but its links and link status changes |
| Programs.FailedExpansion | controllers/bpfman-agent/cl_tc_program.go:161-176 | if expected links cannot be computed, no call is made and every prior entry keeps uuid, link id and status |
| Programs.BecomesQuiescent | controllers/bpfman-agent/cl_kprobe_program.go:167-202 | a program that ends in success, or for which no call failed, has exactly the record its spec and the node call for |
| Programs.QuiescentNoop | controllers/bpfman-agent/common.go:259-268 | reconciling such a program again makes no call and changes no field |
| Programs.QuiescentExact | controllers/bpfman-agent/common.go:548-610 | for such a program the daemon holds exactly one link per expected key, where the key says |
| Programs.UnchangedProgram | controllers/bpfman-agent/common.go:548-600 | if the record comes out unchanged, so did the daemon's programs and links |
| ProgramReconcilers.ProgramReconciler.GetExpectedLinks | controllers/bpfman-agent/cl_tc_program.go:297-373 | the expansion loops fail exactly if the attachment cannot be expanded, and else create one unattached entry, marked and with a uuid of its own, per point that the attachment calls for, field by field |
| ProgramReconcilers.ProgramReconciler.FindLink | controllers/bpfman-agent/cl_tc_program.go:215-233 | the search through the namespace cache finds the first entry of the same kind with equal fields, a namespace path counting by its inode, or reports that the namespace does not resolve |
| ProgramReconcilers.ProgramReconciler.UpdateLinks | controllers/bpfman-agent/cl_tc_program.go:155-201 | the in-place loops leave the list as Links.UpdateLinks says, also for an expansion that fails half-way and for an application being deleted |
| ProgramReconcilers.ProgramReconciler.ReconcileBpfLink | controllers/bpfman-agent/common.go:548-600 | the link in place and the daemon end up as ReconcileLink says, the removal flag is set exactly for an unwanted unattached link, and a missing program id panics exactly when an attach request is built |
| ProgramReconcilers.ProgramReconciler.RemoveLinks | controllers/bpfman-agent/cl_tc_program.go:285-293 | removing the collected indices keeps exactly the entries that are not removable, in order |
| Programs.KeptInOrder | controllers/bpfman-agent/cl_tc_program.go:285-293 | which entries are removed is settled entry by entry, and the rest keep their order |
| ProgramReconcilers.ProgramReconciler.UpdateProgramAttachStatus | controllers/bpfman-agent/cl_tc_program.go:274-282 | the program's status is success exactly if each link's status agrees with its mark |
| ProgramReconcilers.ProgramReconciler.ProcessLinks | controllers/bpfman-agent/cl_tc_program.go:238-272 | the loop reconciles all links in order, removes the unwanted ones and derives the status; it panics exactly when an unloaded program has a marked link, before any daemon call |
| ProgramReconcilers.ProgramReconciler.ReconcileProgram | controllers/bpfman-agent/common.go:259-268 | the whole in-place program reconciliation equals Programs.ReconcileProgram |
| ApplicationProofs.ReconcileProgsStanding | controllers/bpfman-agent/cl_application_program.go:207-239 | the loop over the programs keeps link accounting for all of them and loads or unloads nothing |
| ApplicationProofs.LoadAllOrNothing | controllers/bpfman-agent/cl_application_program.go:741-764 | with distinct state names and a response naming each, every entry gets an id returned for its own name and no two share one |
| ApplicationProofs.LoadFacts | controllers/bpfman-agent/cl_application_program.go:705-764 | a load that succeeds loads every program of the state under a fresh id and records every fresh id; one that fails changes neither record nor daemon |
| ApplicationProofs.UnloadFacts | controllers/bpfman-agent/cl_application_program.go:766-783 | unloading clears every program id, deletes the links of the loaded ones, and removes exactly the recorded programs from the daemon |
| VisitProofs.VisitProgress | controllers/bpfman-agent/cl_application_program.go:181-266 | link accounting survives every visit, in success, error or panic; other applications' programs are untouched, and every recorded id was recorded before or is fresh |
| VisitProofs.VisitNoneLost | controllers/bpfman-agent/cl_application_program.go:681-783 | programs loaded all or none stay so, and whatever is left loaded of the application is recorded |
| VisitProofs.VisitReleases | controllers/bpfman-agent/cl_application_program.go:766-783 | a visit to an application being deleted never panics and clears every program id, unless the selector does not parse, when it changes no program |
| VisitProofs.VisitPanics | controllers/bpfman-agent/cl_xdp_program.go:131-133 | a visit panics if and only if the live application does not select the node and some program of its spec expects a link there |
| VisitProofs.SuccessIsExact | controllers/bpfman-agent/cl_application_program.go:207-255 | on a selected node, a visit to a live application that ends in Success leaves in the daemon, for every program of the spec, exactly one link per expected key whose namespace resolves, and no other |
| HeldPlaces.SuccessIsRealised | controllers/bpfman-agent/cl_application_program.go:207-255 | the same place by place: after Success every program of the spec has a loaded entry of its own type, name and, for fentry and fexit, traced function, and holds one link for every resolvable place that an attachment calls for, and no other |
| HeldPlaces.ExactMeans | controllers/bpfman-agent/common.go:548-610 | one link per expected key means one link at every wanted place and none elsewhere, in terms of the fields of places |
| HeldPlaces.BothHeld | controllers/bpfman-agent/cl_tc_program.go:215-233 | then two wanted places that differ in some field are held by two links |
| VisitProofs.VisitStable | controllers/bpfman-agent/cl_application_program_test.go:429-437 | after Success, or after a visit without failing calls in which every program has its entry, another visit issues no call and leaves every field and uuid, whatever the interface order, the new uuids and the time |
| VisitProofs.DeletingStable | controllers/bpfman-agent/cl_application_program.go:243-266 | an application being deleted is unloaded by one visit, in a condition that is no failure, and left alone by the next |
| VisitProofs.UnchangedVisit | controllers/bpfman-agent/cl_application_program.go:181-266 | a visit that leaves the programs' record unchanged has left the daemon's programs and links unchanged |
| Requests.VisitCalls | controllers/bpfman-agent/cl_application_program.go:705-783 | every daemon call of a visit: Load only for the whole spec under distinct names equal to the state's; Unload only of recorded programs when deleting or not selected; Attach only to a loaded program at an expected place; Detach only of a recorded link that is not expected |
| Requests.AttachesAsRecorded | controllers/bpfman-agent/cl_tc_program.go:127-153 | every link is attached under the uuid, and at the place, of a marked entry that the program is left with |
| Requests.FailedExpansionIsConfined | controllers/bpfman-agent/cl_application_program.go:214-255 | when one program's links cannot be computed, in any visit that gets past loading, reloads included, its entries are all kept and no link is attached or detached under its id, the visit cannot end in Success, and each other program that reports success, or meets no failing call, has exactly its expected links |
| Requests.FailedExpansionIsSkipped | controllers/bpfman-agent/cl_application_program.go:210-239 | whatever calls fail, every other program and the daemon come out of the loop as if that program were not in the spec, but for the uuids of later programs |
| Evolution.VisitEvolves | controllers/bpfman-agent/cl_application_program.go:181-255 | whatever is recorded and whatever fails, a visit loads programs only under fresh ids and leaves links with old ids only where they were |
| PassProofs.PassInv | controllers/bpfman-agent/cl_application_program.go:150-282 | a pass keeps link accounting for all applications of the node at once, whatever daemon calls fail and even if it panics, unless it stops to write a status and the write is refused; that case is LostWrites.RefusedWriteIff |
| PassProofs.PassNoneLost | controllers/bpfman-agent/cl_application_program.go:150-282 | with the same exception no pass leaves a program loaded that no state object records; the excepted case is LostWrites.RefusedNoneLost |
| PassProofs.PassTouchesOne | controllers/bpfman-agent/cl_application_program.go:150-282 | a pass that visits every application changed no state, program or link; one that stops touched only the application it stopped at, and a written status has UpdateCount one higher |
| PassProofs.PassWrites | controllers/bpfman-agent/cl_application_program.go:140-282 | a pass makes at most one write, at the application it stops at, and the state objects come out as the API server takes it: created with the finalizer, status written with the count raised, or the finalizer cleared of an application being deleted that does not fail, each exactly if its write is accepted |
| Convergence.ChangesUnlessAtRest | controllers/bpfman-agent/cl_application_program.go:181-266 | without failing calls, a visit to an application that is loadable, that asks for no link on a node it does not select, or that is being deleted, changes its status if and only if the application is not at rest, and leaves it at rest |
| Unselected.UnselectedVisit | controllers/bpfman-agent/common.go:182-212 | a visit to a live application on a node it does not select, where it asks for no link, leaves nothing loaded or recorded as loaded and every entry as its spec and the node call for |
| Unselected.UnselectedNoop | controllers/bpfman-agent/common.go:182-212 | and further visits change nothing |
| Convergence.PassLowers | controllers/bpfman-agent/cl_application_program.go:150-282 | a pass lowers the total weight by exactly one while it is positive, and otherwise visits all applications and changes nothing |
| Convergence.Converges | controllers/bpfman-agent/cl_application_program.go:150-282 | over any run of passes the weight is the initial one less the number of passes, down to zero |
| Convergence.ConvergesWithin | controllers/bpfman-agent/ns_application_program_test.go:582-588 | after two passes per application, every pass visits all of them and changes no state, program or link |
| ApplicationReconcilers.ApplicationReconciler.GetProgState | controllers/bpfman-agent/cl_application_program.go:417-438 | the entry found is the first with the name and type of the program and, for fentry and fexit, its function; none is found exactly if no entry agrees in all of these |
| HeldPlaces.FoundIsEntry | controllers/bpfman-agent/cl_application_program.go:417-438 | the search the visit uses finds that entry |
| VisitMeanings.EditedNeverSucceeds | controllers/bpfman-agent/cl_application_program.go:417-438 | a live application with a program whose type, name or traced function no entry has any more never comes out of a visit in Success: it panics or ends in Error or in the empty type |
| ApplicationReconcilers.ApplicationReconciler.InitializeNodeProgramList | controllers/bpfman-agent/cl_application_program.go:599-679 | one unloaded entry per program in spec order; fails exactly if the list is not empty or a program comes twice |
| PassProofs.InitialNoneIff | controllers/bpfman-agent/cl_application_program.go:606-611 | making the list fails exactly if a program comes twice: its name, its type and, for fentry and fexit, its function |
| ApplicationReconcilers.ApplicationReconciler.ValidateProgramList | controllers/bpfman-agent/cl_application_program.go:814-852 | succeeds if and only if the spec's names are pairwise distinct and, as a set, the state's names |
| ApplicationReconcilers.ApplicationReconciler.IsLoaded | controllers/bpfman-agent/cl_application_program.go:681-703 | true exactly if every program has an id that the daemon knows |
| ApplicationReconcilers.ApplicationReconciler.GetLoadRequest | controllers/bpfman-agent/cl_application_program.go:705-739 | names all programs of the spec in order, or fails when the bytecode or an entry is missing |
| ApplicationReconcilers.ApplicationReconciler.Load | controllers/bpfman-agent/cl_application_program.go:741-764 | the in-place assignment of ids equals LoadApp, including where it stops on a missing name |
| ApplicationReconcilers.ApplicationReconciler.GetBpfProgramId | controllers/bpfman-agent/internal/bpfman_core.go:277-284 | the id of the first entry of that name, if any |
| ApplicationReconcilers.ApplicationReconciler.Unload | controllers/bpfman-agent/cl_application_program.go:766-783 | the in-place loop equals UnloadUpTo |
| ApplicationReconcilers.ApplicationReconciler.ReconcileLoad | controllers/bpfman-agent/common.go:182-212 | status, daemon and outcome of every branch, as Application.ReconcileLoad |
| VisitMeanings.SelectedIff | controllers/bpfman-agent/common.go:527-543 | a labelled node is selected if and only if it carries every pair of the selector; evaluation fails exactly if the selector does not parse or the node has no labels |
| VisitMeanings.ActsOnlyWhereSelected | controllers/bpfman-agent/common.go:182-212 | whatever fails, a visit asks for Load, Attach or Detach only on a node that carries every pair of the selector, for an application that is not being deleted |
| VisitMeanings.UnmatchedLeavesNothing | controllers/bpfman-agent/common.go:182-196 | on a labelled node that lacks a pair a visit that does not panic leaves nothing recorded, and panic or not exactly the recorded programs are gone from the daemon |
| VisitMeanings.LoadStatusMeans | controllers/bpfman-agent/common.go:182-212 | the load status in every case, by selector, labels, deletion and program list; loading succeeds exactly if all programs end up loaded |
| ApplicationReconcilers.ApplicationReconciler.CheckProgramStatus | controllers/bpfman-agent/cl_application_program.go:402-415 | Success exactly if neither load status intervenes and every program's link status is success |
| VisitMeanings.StatusMeans | controllers/bpfman-agent/cl_application_program.go:402-415 | which load status and link statuses call for which condition, each way round |
| VisitMeanings.VisitEnds | controllers/bpfman-agent/cl_application_program.go:181-266 | the condition a visit ends with, in every case in which all programs have entries: Error on the error path, Unloaded or Success on deletion, else Success exactly if every program reports success |
| ApplicationReconcilers.ApplicationReconciler.UpdateCondition | controllers/bpfman-agent/common.go:221-252 | replaces whatever conditions there are by the new one unless it is the only one, and reports false only if nothing changed |
| VisitMeanings.OneConditionLeft | controllers/bpfman-agent/common.go:221-252 | whatever conditions there were, exactly one of the new type is left, with a new time unless it was the only one |
| ApplicationReconcilers.ApplicationReconciler.UpdateStatus | controllers/bpfman-agent/cl_application_program.go:452-467 | writes exactly if there is no original or the status differs from it, with UpdateCount one higher |
| ApplicationReconcilers.ApplicationReconciler.CreateBpfAppState | controllers/bpfman-agent/cl_application_program.go:284-306 | creates the object with the agent's finalizer, and its first status if every step on the way succeeds |
| VisitMeanings.CreatedRecord | controllers/bpfman-agent/cl_application_program.go:584-679 | a new record has one entry per program in spec order with its name, type and traced function, unloaded, pending and without links, and the one condition Pending |
| ApplicationReconcilers.ApplicationReconciler.RemoveFinalizer | controllers/bpfman-agent/common.go:615-627 | true exactly if the finalizer was there; gone if the write is accepted; nothing else changes |
| ApplicationReconcilers.ApplicationReconciler.ReconcilePrograms | controllers/bpfman-agent/cl_application_program.go:210-239 | the loop over the programs, each reconciled in place, equals Application.ReconcileProgs |
| ApplicationReconcilers.ApplicationReconciler.ReconcileApplication | controllers/bpfman-agent/cl_application_program.go:181-255 | one visit equals Application.Visit |
| ApplicationReconcilers.ApplicationReconciler.Reconcile | controllers/bpfman-agent/cl_application_program.go:122-282 | the whole pass, from a cache that was just reset, equals Pass.OnePass: same states, daemon, uuids and stopping point |
| Operator.Ranking | controllers/bpfman-operator/common.go:114-169 | each decision if and only if: release exactly when deleting and no state carries the agent's finalizer; a missing node ranks above a failing state, that above a pending one; Success exactly when every node is covered and no state is failing or pending |
| Operator.EmptyIsFailing | pkg/helpers/helpers.go:167-186 | a state without conditions makes the verdict an error that names somebody |
| Operator.GuardFirst | controllers/bpfman-operator/common.go:94-112 | without the operator's finalizer the decision is to put it on, whatever could be read; with it, nothing is decided exactly if a list could not be read |
| Operator.ConditionClasses | pkg/helpers/helpers.go:167-199 | which condition types count as failing and as pending, no condition at all counting as both |
| Operator.VerdictNames | controllers/bpfman-operator/common.go:136-169 | a verdict names exactly the state objects with the finalizer, the failing or the pending ones |
| Operator.OneCondition | controllers/bpfman-operator/common.go:199-243 | whatever list there was, exactly one condition of the new type is left, new unless it was the only one, and setting it again changes nothing |
| Operator.ApplicationReconciler.UpdateCondition | controllers/bpfman-operator/common.go:199-243 | the stored conditions end up so if the write is accepted, and unchanged otherwise |
| Operator.ApplicationReconciler.MissingNode | controllers/bpfman-operator/common.go:114-131 | the nested search reports a missing node exactly if some listed node has no state object |
| Operator.ApplicationReconciler.Classify | controllers/bpfman-operator/common.go:133-149 | the three lists are the state objects with the agent's finalizer, the failing ones, and the pending ones that do not fail |
| Operator.ApplicationReconciler.Reconcile | controllers/bpfman-operator/common.go:83-170 | the operator decides as Decide says, and finalizer and conditions change exactly as the decision and the write's outcome call for; on an unguarded application an accepted write puts the finalizer on and leaves the conditions, and on a guarded one nothing is decided exactly if a list could not be read |
| ProtocolProofs.PassMoves | controllers/bpfman-agent/cl_application_program.go:268-273 | what a pass can do to one state object: create it guarded and empty for a live application; drop the finalizer only when deleting and with no program id; add program ids only for a live application |
| ProtocolProofs.Releases | controllers/bpfman-operator/common.go:136-160 | the operator decides to let an application go only if, as it reads them, the application is being deleted and no node's state object carries the agent's finalizer |
| Lifecycle.Guards | controllers/bpfman-operator/common.go:94-96 | in every world the operator can read a live, unguarded application, and its accepted write guards it, changes nothing else of it and makes its deletion possible |
| Lifecycle.WriteGuards | controllers/bpfman-operator/common.go:94-96 | the same whatever happens between the reading and the write, as long as the application is stored and live at the write |
| Lifecycle.GuardOverRuns | controllers/bpfman-operator/common.go:94-169 | in every run an application without the operator's finalizer has no condition and is not being deleted |
| Lifecycle.WholeLife | controllers/bpfman-operator/common.go:83-170 | a run from an empty cluster in which an application is created, loaded, guarded, reported as a success, deleted, unloaded, let go by the agent, released and collected, after which nothing is left of it |
| ProtocolProofs.TeardownSafety | controllers/bpfman-operator/common.go:136-160 | over every interleaving of users, operator and any number of agents, also between the operator's reading and its write, with arbitrary API and daemon failures: an application the operator has released has no recorded program id on any node, and no pass still to run takes it for live |
| ProtocolProofs.AccountingOverRuns | controllers/bpfman-agent/common.go:548-600 | link accounting on every node in every run in which a pass whose status write is refused was not going to attach a link at the application it stopped at |
| ProtocolProofs.NothingLeftLoaded | controllers/bpfman-agent/cl_application_program.go:766-783 | in such runs, if such a pass was not going to load either and the daemon loses all programs or none, every program loaded on a node is recorded for an application that is still stored |
| Verdicts.VisitTruthful | controllers/bpfman-agent/cl_application_program.go:207-255 | a visit that ends in a condition neither failing nor pending nor of empty type leaves exactly the expected links in the daemon if the application is live and selects the node, and nothing recorded otherwise |
| Verdicts.QuietIsTruthful | controllers/bpfman-agent/cl_application_program.go:402-415 | the same of record and daemon as they are, where a visit would change nothing |
| Verdicts.RecordsAreTruthful | controllers/bpfman-agent/cl_application_program.go:452-467 | in every run as in AccountingOverRuns, behind every record with such a condition stands the pass that wrote it and left the node so for the spec and environment it worked with |
| Verdicts.ClusterSuccess | controllers/bpfman-operator/common.go:114-169 | in every such run, when the operator reads what makes it report Success the application is live and every node has a record neither failing nor pending; unless its condition has the empty type, a pass of the run wrote it and left that node exact, and a node whose agent has nothing left to change is exact for the present spec |
| Settled.RestMeans | controllers/bpfman-agent/cl_application_program.go:402-415 | at rest, a live application reports Success if all its attachments can be expanded on the node, and else Error |
| Settled.SettledVerdict | controllers/bpfman-operator/common.go:114-169 | once every agent has converged the operator reports Success exactly if the attachments can be expanded on every node, and else Error |
| Settled.TeardownCompletes | controllers/bpfman-operator/common.go:151-160 | once every agent has converged on a deleted application, on the nodes it selects and on the others, the operator's next reading and write release it |
| Rounds.RoundsLower | controllers/bpfman-agent/cl_application_program.go:122-282 | in any interleaving of agents, operator (releases included) and collection of objects while users rest and calls succeed, each time an agent lists the applications and works through them a bound on what it has left to do drops by one, until nothing is left to do for what is still stored |
| Rounds.RestsWhenReached | controllers/bpfman-operator/common.go:136-160 | a world that any run reaches can start such a run as soon as no pass is under way and every agent can load what is asked of it |
| Rounds.ClusterConverges | controllers/bpfman-agent/cl_application_program.go:122-282 | so after two rounds of every agent per application, every agent has nothing left to do for any application that is still stored, and those that are not were being deleted |
| Orphans.OrphansStay | controllers/bpfman-agent/cl_application_program.go:138-179 | a state object with the finalizer whose application is gone and listed no more stays so in every run, and the name can never be used again |
| Orphans.OrphanByPass | controllers/bpfman-agent/cl_application_program.go:161-176 | a pass over an old list makes one exactly if it stops at the application that is gone by creating its state object |
| Orphans.OrphanByRelease | controllers/bpfman-operator/common.go:151-155 | a release makes one exactly if, at the write, a state object with the finalizer exists that no pass is about to visit |
| Orphans.OrphanIsCreatedMeanwhile | controllers/bpfman-operator/common.go:136-160 | such an object was created by a pass between the operator's reading and its write |
| Cache.CountsByOne | controllers/bpfman-agent/cl_application_program.go:452-467 | in every run, whatever waits fail, each accepted status write raises UpdateCount by exactly one |
| Cache.ReadsOwnWrites | controllers/bpfman-agent/cl_application_program.go:469-561 | in every run in which all waits succeed, wherever the lagging cache stands the next reconcile reads the object with the status last written |
| Cache.OneObject | controllers/bpfman-agent/cl_application_program.go:443-450 | in every run in which each creation's wait finds an object, whatever status waits fail and whatever writes are refused, there is at most one state object and no later reconcile reads none when there is one |
| Cache.FinalizerIff | controllers/bpfman-agent/common.go:615-627 | however far the cache has come, it shows the finalizer of an object exactly if none of the writes it has seen cleared it |
| Cache.SecondCreationIff | controllers/bpfman-agent/cl_application_program.go:477-500 | where there is none, an accepted creation can be followed by a second one if and only if its wait does not find it |
| Cache.WaitedWriteIsRead | controllers/bpfman-agent/cl_application_program.go:503-528 | in every run, when the wait for an accepted status write succeeds, the first one after a creation included, the cache has caught up with every write, so no later read is older |
| Cache.FailedWaitDuplicates | controllers/bpfman-agent/cl_application_program.go:477-500 | a run with such a second creation, after which reads find two objects and fail |
| NetNs.AnswersFirstHit | controllers/bpfman-agent/common.go:95-129 | for any queries and filesystem changes since the reset, an answer is the inode at the path's first successful lookup, and there is none exactly if there was none |
| NetNs.AnswersAgree | controllers/bpfman-agent/common.go:95-129 | all answers for one path agree once there is one, the empty path counting as the host's |
| NetNs.FixedFilesystem | controllers/bpfman-agent/common.go:95-129 | while the filesystem does not change, every answer is that of a direct lookup |
| NetNs.NetNsCache.GetNetNsId | controllers/bpfman-agent/common.go:95-124 | answer and new cache as Lookup says; transparent while the cache agrees with the filesystem |
| MountInfo.ScanExact | internal/bpffs/bpffs.go:43-111 | on a file in the format of proc(5), /proc/pid/mountinfo, with any number of optional fields and separator-free lines between, some line matches exactly if some record has the mount point and type bpf |
| MountInfo.IsMounted | internal/bpffs/bpffs.go:61-111 | the scanner reports a mount exactly if some line matches before any overlong one, an open error exactly if the file cannot be opened, a read error only if some line is overlong, and no mount only if none is |
| MountInfo.FieldsOfJoin | internal/bpffs/bpffs.go:84-100 | splitting tokens joined by spaces gives the tokens back |
| MountInfo.FieldsOfSpaced | internal/bpffs/bpffs.go:84-100 | however wide the gaps of spaces and tabs are, the tokens come out |
| MountInfo.TokensMatch | internal/bpffs/bpffs.go:73-103 | a line with any number of tokens on either side of the separator matches exactly if the fifth before it is the mount point and the first behind it is bpf |
| MountInfo.LinesMakeText | internal/bpffs/bpffs.go:66-72 | any text is split into lines without newlines that make it up again, whether or not it ends in one |
| Limits.ErrorPathIff | controllers/bpfman-agent/cl_application_program.go:185-201 | a visit takes the error path if and only if the selector does not parse or the node has no labels, or the live, selected application's program list has changed, or its programs are not all loaded and the bytecode or an entry is missing or the daemon refuses |
| Limits.StuckBlocksTheRest | controllers/bpfman-agent/cl_application_program.go:185-205 | an application that keeps taking the error path, for any of these reasons, ends every pass: over any run no later application is created, updated or released |
| Limits.EmptyRecordIff | controllers/bpfman-agent/cl_application_program.go:284-306 | creating a state object leaves a record without programs, and then without a condition, if and only if the wait fails, the first status write is refused or a program comes twice; the application is then stuck in that way |
| Limits.ChangedProgramNeverRests | apis/v1alpha1/shared_types.go:421-467 | when an entry is missing, every visit that gets past loading decides on a condition with empty type and a new time, neither failing nor pending |
| ChangedPrograms.UnfoundStops | controllers/bpfman-agent/cl_application_program.go:210-255 | whatever is recorded and whatever fails, a visit to such a live application panics, takes the error path or changes the status |
| ChangedPrograms.UnfoundBlocksTheRest | controllers/bpfman-agent/cl_application_program.go:256-266 | so it ends every pass as the clock runs: over any run, with its status written or refused, no later application is created, updated or released |
| Limits.EmptyTypeIff | apis/v1alpha1/shared_types.go:421-467 | past loading, on a node that is selected or not, a live application's condition has the empty type if and only if some program of its spec has no entry, and is Success or Error otherwise |
| Limits.EmptyTypeReadsAsSuccess | pkg/helpers/helpers.go:167-199 | were such conditions stored everywhere, the operator would report Success |
| Limits.StaleListLoads | controllers/bpfman-agent/cl_application_program.go:140-179 | the operator releases a deleted application without state objects, and two passes over the list from before its deletion create its state and load its programs |
| Limits.ReloadForgets | controllers/bpfman-agent/cl_application_program.go:681-764 | a successful reload leaves nothing loaded without a record if and only if none of the recorded programs was still loaded |
| Limits.PassPanicsOnlyUnselected | controllers/bpfman-agent/cl_application_program.go:207-235 | a pass can panic only at a live application that does not select the node and expects a link there |
| LostWrites.ProgsAttach | controllers/bpfman-agent/cl_tc_program.go:155-272 | whatever calls fail, the loop over loaded programs attaches a link for an entry only if the spec's program for it has an expected key whose first entry is missing or not attached, and if no call fails it does so exactly then |
| LostWrites.DiscardedVisit | controllers/bpfman-agent/cl_application_program.go:452-467 | whatever fails, the record from before a visit still accounts for every link if and only if the visit attached none to its programs |
| LostWrites.DiscardedIff | controllers/bpfman-agent/cl_application_program.go:452-467 | whatever calls fail that is so if, before the visit, the application is not live, selected and loaded under its record, or none of its programs lacks an expected link; without failing calls, only then |
| LostWrites.RefusedWrite | controllers/bpfman-agent/cl_application_program.go:452-467 | a pass whose status write is refused keeps link accounting if and only if it attached no link to a recorded program, whatever fails |
| LostWrites.RefusedWriteIff | controllers/bpfman-agent/cl_application_program.go:452-467 | whatever calls fail, it keeps it if the application it stops at lacked no expected link, by record, daemon and spec from before the pass; without failing calls, only then |
| LostWrites.DiscardedNoneLost | controllers/bpfman-agent/cl_application_program.go:452-467 | a visit whose outcome is discarded leaves a program loaded that nothing records if and only if the live, selected application was not loaded, its list matches, its bytecode and entries are there, and the daemon does not refuse |
| LostWrites.RefusedNoneLost | controllers/bpfman-agent/cl_application_program.go:452-467 | a pass whose status write is refused does so only if the application it stops at was going to be loaded, and without failing calls exactly then |
| Witnesses.Reached | controllers/bpfman-agent/cl_application_program.go:122-306 | a run of the protocol that creates and loads an application and leaves an agent about to work on any edit of it |
| Witnesses.UnselectedPanics | controllers/bpfman-agent/cl_xdp_program.go:131-133 | from there, an edit that deselects the node: the pass unloads the program, panics, and leaves the record as it was |
| Witnesses.FailedWriteForgets | controllers/bpfman-agent/cl_application_program.go:452-467 | from there, an edit that asks for a link: a refused status write leads to a key attached twice under Success |
| Witnesses.ChangedType | controllers/bpfman-agent/cl_application_program.go:417-438 | from there, an edit of the program's type: the visit decides on a condition of empty type |
| Witnesses.ChangedFunction | controllers/bpfman-agent/cl_application_program.go:425-433 | from there, an edit of the function that the program traces: the same |
| Witnesses.UnresolvedBlocks | controllers/bpfman-agent/cl_application_program.go:705-711 | while the bytecode of one application does not resolve, the one behind it never gets a state object |
| Witnesses.StaleListLoadsOne | controllers/bpfman-agent/cl_application_program.go:140-179 | a concrete node on which an outdated list gets a released application loaded |
| LostProgram.ReachesLoss | controllers/bpfman-agent/cl_application_program.go:122-306 | a run of the protocol in which an application with two programs is created and loaded and the daemon loses one |
| LostProgram.ReloadForgetsOne | controllers/bpfman-agent/cl_application_program.go:681-764 | the next visit loads both again; the one that was left stays loaded and drops out of the record |
| Daemons.Bpfman.Load | controllers/bpfman-agent/internal/test-utils/fake_bpfman_client.go:63-88 | all requested programs under consecutive fresh ids, answered in request order, or no effect |
| Daemons.Bpfman.Unload | controllers/bpfman-agent/internal/test-utils/fake_bpfman_client.go:90-95 | the program and its links are gone |
| Daemons.Bpfman.Attach | controllers/bpfman-agent/internal/bpfman_core.go:123-133 | a fresh link on the program, or no effect |
| Daemons.Bpfman.Detach | controllers/bpfman-agent/internal/bpfman_core.go:141-148 | the link is gone, or no effect |

## Left out

- Pointers into the state object: a `ProgramReconciler` works on a copy of its entry that is put back, where the code writes through a pointer into the list.
- Links of the ten program types are one list of one `AttachPoint` type; the code has one list field per type and one reconciler type per program type with the same loops.
- The namespaced twin (`ns_*.go`): same loops; its applications are looked up within a namespace and its attachments always carry a container selector, an instance of the model with the pair of namespace and name as key.
- TCX-, XDP- and uprobe-specific conversions, proceedOn codes, getters, log text and condition messages: settled by reading one branch.
- The Kubernetes client, watches, predicates, requeueing and owner references: an object store, in `Cache` with a lagging reader, and `Protocol.Collect` for garbage collection.
- gRPC, CRI, container and pod lookup, primary-interface lookup, regular expressions, bytecode resolution: parameters in `Env`.
- Label selectors beyond matchLabels: matchExpressions only matter through whether the selector parses and matches.
- nil against empty slices and maps in the status comparison, and 32-bit wrap-around of UpdateCount and ids.
- MountInfo.IsMounted: line length is counted in characters, where the scanner counts bytes, and a read error other than an overlong line is not modelled.
- `Pass.OnePass` reads each state object as it was last written. `Cache.ReadsOwnWrites` proves this of the status in runs whose waits succeed, not of the finalizer, whose removal is not waited for: a pass that reads a stale finalizer stops at a refused second removal, which `Pass.OnePass` does not cover, nor does it a pass after a failed wait.
- LostWrites.RefusedWriteIff: when calls fail and a link was going to be attached, whether the record still accounts for every link depends on which calls fail; LostWrites.RefusedWrite covers that through the links that were attached.
- The schema of the custom resources: a write is accepted or refused by choice, also one that the schema never accepts.
- Timeouts: a wait succeeded or failed. Crashes between a daemon call and the status write have the effect of a refused write.
- Two controllers of one agent sharing the namespace cache at the same time.
- Cache.ReadsOwnWrites: does not model that the state object is collected and the application's name used again, nor a write that takes effect but is reported as failed.
- ProtocolProofs.TeardownSafety: assumes the guards of `Protocol.Allowed`, and that the operator reads the application, its state objects and the nodes at one moment; without the operator's finalizer an application vanishes at once, whatever its nodes have loaded.
- Verdicts.ClusterSuccess: a record may speak of an older spec than the present one, so exactness for the present spec is claimed only where the agent has nothing left to change.
- The agent's finalizer is one flag; other finalizers on the objects are not part of the model.
- Operator configuration (`config.go`), generated code, metrics, command-line handling, mounting and unmounting.
