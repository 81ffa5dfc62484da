# Verified model of the plugin marketplace core

A Dafny model of the parts of the marketplace service whose correctness is hardest to see by
reading: the one-off migration (planner and crash-resumable apply), the install dispatch lease,
the Fleet result validator, the dependency suspension cascade, and six smaller algorithms.

Code that updates things step by step is modelled by classes and methods with loops, each proved
against a specification; the laws are then proved about the specification for every input, every
run or every reachable state.

**Migration apply.** `Tables`, `MigrationPlan` and `ApplySpec` define the rows, the plan and one
conversion transaction; `MigrationStore` runs it statement by statement on mutable tables and is
proved to compute exactly that. `ApplyConflict` says, from the plan and the captured database alone,
when a node cannot be converted. `ApplyInvariant` and `ApplyStep` show that every committed prefix
keeps all earlier receipts and all pending evidence intact; `Resume` concludes that a conversion
stopped anywhere, also during setup, and resumed any number of times never trips on its own checks,
is refused exactly when the captured data say so, and ends in the same database. All of this rests
on one static condition on plans (`Safe`) and on the database being the captured one (`Captured`).

**Migration planner.** `SkillCanonical`, `PlannerNodes`, `PlanArrangement`, `ConnectorCanonical`,
`ConnectorNames`, `ConnectorAliases` and `PlanOrder` are the passes. `PlanBuild` shows that their
result can be applied and `PlanMeaning` that it is the input, rewritten. `MigrationPlanner` puts them
together: a plan built without issues is `Faithful` to its input, column by column, edge by edge and
server by server, and passes the label, pin, name and server-key checks; an input without defects gives
no issues, in particular no cycle. The assumptions are about the input and the text functions, and an
example meets them. The two halves meet in `Applicable`: on every database that the input was read from
such a plan can be interrupted and resumed at will, and `ResourceArrives` follows each resource from the
captured input to its converted row. `ReleaseCheck` is the check of labels and version pins, and
`AliasOrders` tells which alias maps can be walked.

**Install lease.** `InstallLease` runs the conditional updates of one attempt row under any
interleaving of workers, with a ghost history of sends.

**Fleet results.** `FleetTypes`, `FleetBindings` and `FleetResult` prove that the validator accepts
exactly the results that satisfy a graph specification; `FleetGraph` draws the conclusion that the
installed graph of a created team is the requested graph.

**Suspension.** `Suspension` and `SuspensionCascade` treat the worklist over a catalog that shrinks
while it is walked.

**Smaller algorithms.** `VersionLabels`, `ReferencePlan` and `ReferenceStore`, `PreparedFiles`,
`ArtifactResolver`, `JsonDocument`, `InetAton`; `Decimal`, `Strings`, `FiniteSets` and `Options` are shared helpers.

## What the proofs found

* Projecting MCP aliases can depend on Go's map order, when an alias is also a key of the document
  (`ConnectorAliases.OrderCanMatter`). Every order is accepted, with one result, exactly for safe alias
  maps (`OrderDoesNotMatter`, `UnsafeAliasesCanFail`). Some order is accepted exactly when every key ends
  with one server or none and every ring of keys has a free place and a server to move
  (`AliasOrders.AcceptedExactly`), so the outcome is independent of the order exactly for safe maps and
  for maps that fail this condition (`AliasOrders.OrderIndependentExactly`). The aliases the planner
  chooses are safe.
* On the catalogs that the service's write path accepts, where experts use only skills and connectors
  and no team is embedded, the suspension cascade is always exact (`Suspension.TypedSuspendsExactly`).
  The typing is what makes it so: on graphs outside it, which the endpoint matrix of
  internal/service/plugin/validation.go:145-156 refuses, a plugin embedded in the only plugin it uses
  would go down unseen and its users would stay listed (`TakenDownFirst`, `MissedChild`, `StillListed`).
* Once every edge of a finished resource leads to an active resource of the right type, the planner's
  cycle report cannot occur (`MigrationPlanner.ResolvedIsAcyclic`).
* The size tests of the closing recount of the artifact resolver can never fire
  (`ArtifactResolver.Resolver.Recount`).

## Model

| member | source | states |
|---|---|---|
| `Resume.ResumeNeverTripsOnItself` | internal/migration/apply.go:678-729 | after any series of attempts, each interrupted anywhere, also inside setup, the preflight passes, and a further attempt is refused exactly when the captured data forbid one of its nodes |
| `Resume.RefusedAtFirstConflict` | internal/migration/apply.go:127-135 | a refused run stops at the first node that the captured data forbid |
| `Resume.SetupResumes` | internal/migration/apply.go:71-96 | a setup interrupted after any mapping row is completed by the next one |
| `Resume.ResumeEndsTheSame` | internal/migration/apply.go:108-142 | however often it was interrupted, an attempt allowed to finish ends in the same database with the same result as one uninterrupted run |
| `Resume.CompleteRunVerifies` | internal/migration/apply.go:143-223 | a run is not refused exactly when the captured data forbid no node, and then every node has the planned columns and live edges and every final check is satisfied: receipts, catalog, mappings, releases |
| `Resume.SafeIsResumable` | internal/migration/apply.go:108-223 | for every series of interruptions at once: the preflight passes and a full attempt ends as an uninterrupted one, with every node converted unless the captured data forbid one |
| `ApplyConflict.MergeExactly` | internal/migration/apply_placements.go:13-30 | merging succeeds exactly when no two rows of one code disagree, and gives all rows of both |
| `ApplyConflict.MergeOrderDoesNotMatter` | internal/migration/apply_placements.go:60-82 | the order of the merged sources changes neither the verdict nor the rows |
| `ApplyConflict.RegisterExactly` | internal/migration/apply_placements.go:93-123 | a registration is refused exactly when its identity is taken or an earlier need outside the captured catalog wants it otherwise |
| `ApplyConflict.TransferExactly` | internal/migration/apply_placements.go:53-128 | in every state the run reaches, a node's transfer is refused exactly for a conflict defined on the captured database |
| `ApplyStep.NextCommits` | internal/migration/apply.go:328-430 | from every committed prefix the next node is converted, keeping the whole invariant, exactly when the captured data allow it |
| `ApplyStep.RepeatIsNoOp` | internal/migration/apply.go:328-345 | a node that already holds a receipt is verified and leaves the database as it is |
| `ApplyStep.ReceiptFrame` | internal/migration/apply.go:246-321 | no transaction changes anything that another node's receipt covers |
| `ApplyStep.CoveredStands` | internal/migration/apply_placements.go:86-124 | registrations added by one node never fall under an earlier node's receipt |
| `ApplyStep.NotRetiredTwice` | internal/migration/apply.go:409-428 | a mapped source is written only by its own target's node |
| `ApplyStep.LateHolderIsRefused` | internal/migration/apply.go:566-613 | the order is needed: a node holding evidence of a source that was already rewritten is refused |
| `ApplyStep.NodesStep` | internal/migration/apply.go:435-521 | committed nodes have and keep the planned columns, live edges, version, label and publication pointers |
| `ApplyInvariant.PendingSourcesVerify` | internal/migration/apply.go:633-674 | the source evidence of every node that is still pending verifies |
| `ApplyInvariant.CatalogVerifies` | internal/migration/category_snapshot.go:28-126 | the category check accepts every state the plan itself reaches |
| `MigrationStore.MergePlacements` | internal/migration/apply_placements.go:13-36 | the map-based merge computes the specified merge, conflict included |
| `MigrationStore.Store.TransferMigrationPlacements` | internal/migration/apply_placements.go:53-128 | the tables end as the specified transfer says, or it is refused with the specified reason |
| `MigrationStore.Store.RetireMigrationCatalog` | internal/migration/apply_placements.go:130-133 | exactly the catalog rows of the source are retired |
| `MigrationStore.Store.WriteRows` | internal/migration/apply.go:435-521 | the plugin row and the version rows of the node are written and no others |
| `MigrationStore.Store.WriteMappings` | internal/migration/apply.go:409-428 | the node's mapping rows are added and their sources retired, or nothing changes |
| `MigrationStore.Store.VerifySourceRows` | internal/migration/apply.go:566-674 | accepts exactly when all evidence of the node is intact |
| `MigrationStore.Store.VerifyCategorySnapshot` | internal/migration/category_snapshot.go:28-97 | accepts exactly the tables that hold the baseline plus justified registrations |
| `MigrationStore.Store.VerifyCompletedCategoryPresence` | internal/migration/category_snapshot.go:99-126 | accepts exactly when every categorised placement of a completed node is registered |
| `MigrationStore.Store.ApplyNode` | internal/migration/apply.go:328-430 | one transaction: the tables end as specified, or as they were |
| `MigrationStore.Store.SetupApply` | internal/migration/apply.go:71-96 | the run row and the mapping rows are inserted one by one, as specified, up to where it stops |
| `MigrationStore.Store.Apply` | internal/migration/apply.go:108-142 | setup, nodes and closing verification do exactly what one specified attempt does, wherever it stops |
| `MigrationStore.Store.Verify` | internal/migration/apply.go:143-223 | accepts exactly when catalog, releases, receipts and mappings are those of the plan |
| `MigrationStore.Store.CheckPlanSources` | internal/migration/apply.go:678-729 | accepts exactly when receipts verify, pending evidence is intact and the catalog verifies |
| `SkillCanonical.ChooseCanonical` | internal/migration/plan.go:151-186 | every active skill is sent to one member of its own group, which is sent to itself; no issue exactly when policy settles every frontend group, and then a chosen one represents it |
| `SkillCanonical.SettledTwice` | internal/migration/plan.go:187-210 | a skill settles on a skill that settles on itself, also across system skills |
| `SkillCanonical.CanonicalSkills` | internal/migration/plan.go:151-210 | the final map is idempotent and defined exactly on the active skills; no issue exactly when policy settles every frontend group |
| `SkillCanonical.SettledAlike` | internal/migration/plan.go:187-210 | a skill is represented by one of the same name and lifecycle, with the same audience or a system-wide one |
| `PlannerNodes.TargetsDistinct` | internal/migration/plan.go:211-230 | two resources that stand for themselves never share a target |
| `PlannerNodes.MakeNodes` | internal/migration/plan.go:231-310 | one node per active representative with its columns and the label that follows all it has carried, one mapping per resource, nothing else; no issue exactly when nothing awaits review and no label is used up |
| `PlannerNodes.EdgeTargets` | internal/migration/plan.go:312-401 | every rewritten edge is a live edge of the source, leading to the target of an active resource and pinned to its version |
| `PlannerNodes.EdgesComplete` | internal/migration/plan.go:312-401 | every live edge to an active resource is rewritten |
| `PlannerNodes.ReferencesAreOffered` | internal/migration/plan.go:551-572 | whoever is offered a resource is offered every shared resource it may refer to |
| `PlannerNodes.RewriteEdges` | internal/migration/plan.go:323-387 | the live edges are redirected in order; no issue is reported exactly when all of them lead to an active, accessible resource of the right type |
| `PlannerNodes.ExtractServers` | internal/migration/plan_mcp.go:10-65 | each server of an expert becomes one connector of the same source, and the expert gets exactly one edge to it |
| `PlannerNodes.ExtractNodes` | internal/migration/plan.go:402-422 | all experts are split, and only server nodes are added |
| `ConnectorCanonical.Canonicalize` | internal/migration/connector_canonical.go:13-67 | a quotient: folded connectors land on the earliest of their class, survivors have distinct keys, every folded source is kept by its survivor |
| `ConnectorCanonical.RewireSound` | internal/migration/connector_canonical.go:44-67 | every edge afterwards is the redirection of an edge before |
| `ConnectorCanonical.RewireComplete` | internal/migration/connector_canonical.go:44-67 | every edge before still has an edge of its kind to its redirected target |
| `ConnectorCanonical.RewireDistinct` | internal/migration/connector_canonical.go:44-67 | no node keeps two connector edges to one target |
| `ConnectorNames.ClosureOf` | internal/migration/connector_names.go:87-114 | the search finds exactly the connectors reachable from the root, also in cyclic graphs |
| `ConnectorNames.SourceName` | internal/migration/connector_names.go:116-146 | the shortening loop ends within both name limits, takes off as little as they allow, from the base before the source, and keeps the discriminator at the end |
| `ConnectorNames.RetriesDiffer` | internal/migration/connector_names.go:53-70 | numbered retries end in different ways, so they give different names |
| `ConnectorNames.FreshName` | internal/migration/connector_names.go:53-70 | the retry loop ends with a name that no peer uses |
| `ConnectorNames.NameDistinctConnectors` | internal/migration/connector_names.go:16-83 | without an issue, connectors installed together have pairwise distinct normalised names; nothing changes but the names of connectors that shared theirs with one installed together |
| `ConnectorNames.NameAmbiguous` | internal/migration/final_contract.go:95-135 | the check reports a root exactly when two connectors in its closure share a name |
| `ConnectorNames.DistinctNamesPass` | internal/migration/final_contract.go:95-135 | distinct normalised names satisfy the check at every root |
| `ConnectorAliases.MakeLabel` | internal/migration/connector_aliases.go:113-129 | the byte loop computes the specified label, which always has an accepted shape |
| `ConnectorAliases.AliasFits` | internal/migration/connector_aliases.go:80-92 | every alias, at every attempt, matches the accepted pattern |
| `ConnectorAliases.ProjectAliases` | internal/migration/connector_aliases.go:139-158 | the result is that of some walk over the alias map; with safe aliases every server keeps its value under its alias or its own key, and nothing else is there |
| `ConnectorAliases.OrderDoesNotMatter` | internal/migration/connector_aliases.go:139-158 | with safe aliases every order of the map gives the same document |
| `ConnectorAliases.UnsafeAliasesCanFail` | internal/migration/connector_aliases.go:139-158 | every order is accepted only for safe aliases: otherwise some order is refused |
| `AliasOrders.AcceptedExactly` | internal/migration/connector_aliases.go:139-158 | some order of the map is accepted exactly when aliases are well formed and change their keys, every key ends with one server or none, and every ring of keys can turn |
| `AliasOrders.OrderIndependentExactly` | internal/migration/connector_aliases.go:139-158 | the order does not matter exactly for safe aliases and for maps that fail that condition on keys |
| `AliasOrders.BalanceStays` | internal/migration/connector_aliases.go:144-154 | moving a server changes for no key how many servers it ends with |
| `AliasOrders.GoodMove` | internal/migration/connector_aliases.go:144-154 | under the condition some server can be moved, and one of the moves keeps the condition |
| `ConnectorAliases.OrderCanMatter` | internal/migration/connector_aliases.go:139-158 | a concrete alias map that one order accepts and another refuses |
| `ConnectorAliases.AliasConnectorServerKeys` | internal/migration/connector_aliases.go:20-111 | exactly the colliding keys get aliases, all fresh and different; server values and other keys are untouched |
| `ConnectorAliases.AliasedIsRenamed` | internal/migration/connector_aliases.go:20-111 | every connector keeps its servers, under a one-to-one renaming of their keys |
| `ConnectorAliases.AliasedKeysDistinct` | internal/migration/connector_aliases.go:20-111 | afterwards no expert has two connectors with a server key in common |
| `ConnectorAliases.ProjectionReproduces` | internal/migration/connector_aliases.go:160-197 | projecting the original again, in any order, gives the servers that the pass left |
| `ConnectorAliases.ServerKeyConflict` | internal/migration/connector_server_keys.go:13-65 | the last-owner scan reports a conflict exactly when two connectors of the expert share a key |
| `ConnectorAliases.DistinctKeysPass` | internal/migration/connector_server_keys.go:13-65 | distinct keys leave nothing to report |
| `PlanOrder.Order` | internal/migration/plan.go:445-469 | every node once; a cycle is reported exactly when there is one; otherwise dependencies come first |
| `PlanOrder.TopologicalIsAcyclic` | internal/migration/plan.go:445-469 | an order with dependencies first exists only for graphs without cycles |
| `PlanBuild.HolderIsDependency` | internal/migration/plan.go:429-486 | a node that holds the evidence of a source converted elsewhere is a dependency of the node that converts it, for extracted and folded connectors and dropped draft edges too |
| `PlanBuild.BuiltIsSafe` | internal/migration/plan.go:423-486 | what the passes build satisfies the static condition under which apply is safe |
| `PlanBuild.BuiltIsCaptured` | internal/migration/plan.go:470-486 | its evidence is that of the database the input was read from |
| `PlanArrangement.Arrange` | internal/migration/plan.go:151-422 | every node is a resource or one server of an expert, with that source's columns, servers, edges, publication and next label; an input without defects gives no issue |
| `PlanArrangement.PairsBounded` | internal/migration/plan_mcp.go:10-65 | the nodes have no more server keys than were captured |
| `PlanMeaning.BuiltIsFaithful` | internal/migration/plan.go:211-486 | every active resource is mapped to its own node, to a skill standing for it, or to a connector with its audience, owner and servers; every node has the columns of its source up to connector names and server keys, with the captured configurations; every edge and pin has its reason; no live edge is forgotten, and for each server of an expert some edge leads to a connector with that configuration |
| `MigrationPlanner.ResolvedIsAcyclic` | internal/migration/plan.go:447-462 | when all edges resolve the plan has no cycle |
| `MigrationPlanner.Build` | internal/migration/plan.go:18-538 | a plan without issues is faithful to its input, safe, resumable on every database the input was read from, and passes the label, pin, name and server-key checks; an input without defects has no issues |
| `MigrationPlanner.FinalIssues` | internal/migration/plan.go:487-489 | no issue exactly when labels and pins are releasable, no root is ambiguous and no expert has a key twice |
| `MigrationPlanner.BuiltIsApplicable` | internal/migration/plan.go:470-486 | what the passes build is safe, and captured and resumable for every database the input was read from |
| `MigrationPlanner.ResourceArrives` | internal/migration/apply.go:108-142 | after any interruptions a successful attempt leaves every active resource mapped to a row that has the planned columns and edges of what it becomes |
| `MigrationPlanner.ExampleMeetsRequires` | internal/migration/plan.go:18-28 | the assumptions of the build hold for an active expert with a server, which it therefore plans |
| `ReleaseCheck.ValidateMigrationReleases` | internal/migration/release_validation.go:32-61 | no issue exactly when all labels are releasable and every reference but a connector's names the released version of its target |
| `ReleaseCheck.PlannedPinsAreReleasedExactly` | internal/migration/release_validation.go:50-60 | of a built plan this asks only that the targets are released: the pins are right |
| `ReleaseCheck.BuiltLabels` | internal/migration/release_validation.go:35-49 | every label of a built plan can be released |
| `ReleaseCheck.CleanIsReleasable` | internal/migration/release_validation.go:32-61 | the plan of an input whose live edges lead to resources that offer a version passes the check |
| `InstallLease.Repo.ClaimInstallAttempt` | internal/repository/plugin/install_attempt.go:39-45 | the first claim wins and every contender reads the winner |
| `InstallLease.Repo.AcquireInstallDispatch` | internal/repository/plugin/install_attempt.go:78-90 | the left-to-right update is the specified step and reports whether it matched |
| `InstallLease.Repo.SetInstallDispatchUnknown` | internal/repository/plugin/install_attempt.go:94-97 | the update is the specified step |
| `InstallLease.Repo.FinishInstallDispatch` | internal/repository/plugin/install_attempt.go:102-109 | the update is the specified step and reports whether it matched |
| `InstallLease.Repo.ExpireInstallAttempt` | internal/repository/plugin/install_attempt.go:113-116 | the update is the specified step |
| `InstallLease.Repo.FailInstallDispatch` | internal/repository/plugin/install_attempt.go:120-127 | the update is the specified step and reports whether it matched |
| `InstallLease.RunKeepsInv` | internal/repository/plugin/install_attempt.go:39-127 | every state that any interleaving of workers reaches satisfies the lease invariant |
| `InstallLease.FailedMeansEverySendRejected` | internal/repository/plugin/install_attempt.go:118-127 | in FAILED every send ever made was rejected |
| `InstallLease.FailMatchesExactly` | internal/repository/plugin/install_attempt.go:118-127 | a rejection is recorded exactly when the worker holds the lease and every earlier send was rejected |
| `InstallLease.LatchIsExact` | internal/repository/plugin/install_attempt.go:78-97 | the latch is set exactly when some send was reported unknown or lost its lease, or there was no frozen plan |
| `InstallLease.LatchIsForEver` | internal/repository/plugin/install_attempt.go:78-127 | once set it stays set, and FAILED is out of reach for ever |
| `InstallLease.OutcomesAreFinal` | internal/repository/plugin/install_attempt.go:92-127 | an outcome once settled never changes |
| `InstallLease.TerminalRowIsFrozen` | internal/repository/plugin/install_attempt.go:99-116 | SUCCEEDED and EXPIRED absorb: no statement changes the row again |
| `InstallLease.FinishCountsOnce` | internal/repository/plugin/install_attempt.go:99-109 | at most one finish returns true, and one does exactly when the run has succeeded |
| `InstallLease.WinnerKeepsItsIds` | internal/repository/plugin/install_attempt.go:99-109 | the ids of the finish that won stay, whatever runs before and after |
| `InstallLease.LeaseExactlyWhileDispatching` | internal/repository/plugin/install_attempt.go:78-127 | token and deadline are present exactly in DISPATCHING and belong to the last send |
| `InstallLease.ReportsOnOwnSend` | internal/repository/plugin/install_attempt.go:92-127 | a report that is accepted comes from the holder and concerns its own send |
| `InstallLease.SupersededTokenIsPowerless` | internal/repository/plugin/install_attempt.go:92-127 | a worker that lost its lease changes nothing, ever after |
| `InstallLease.LeasesDoNotOverlap` | internal/repository/plugin/install_attempt.go:78-90 | under a clock that never goes back no two leases run at one moment unless the earlier was given back |
| `InstallLease.RetryWindowIsFixed` | internal/repository/plugin/install_attempt.go:74-90 | the retry deadline is never moved |
| `InstallLease.FirstAcquireSetsTheWindow` | internal/repository/plugin/install_attempt.go:74-90 | it is the first acquire's clock reading plus its span |
| `InstallLease.AcquiresFallInTheWindow` | internal/repository/plugin/install_attempt.go:74-90 | every later acquire falls before it |
| `FleetBindings.IndexResources` | internal/fleet/capability.go:598-610 | accepts exactly lists with usable distinct ids and names, and indexes them |
| `FleetBindings.CheckReferences` | internal/fleet/capability.go:347-370 | the last-index trick and the size comparison accept exactly when all bindings resolve, no expert repeats one and nothing listed is unbound |
| `FleetBindings.CheckCreatedBindings` | internal/fleet/capability.go:485-557 | accepts exactly when each wanted name has one definition and the bound identities are the wanted ones, one each, with matching market ids |
| `FleetResult.CheckConnectorsOnly` | internal/fleet/capability.go:559-589 | accepts exactly when reported and requested connectors are in bijection by identity |
| `FleetResult.CheckMembers` | internal/fleet/capability.go:448-463 | accepts exactly when members name every expert once and one of them leads |
| `FleetResult.CheckTeamGraph` | internal/fleet/capability.go:433-483 | accepts exactly when returned experts, requested experts and members are in bijection by name, each pair agrees and the leader matches |
| `FleetResult.ValidCapabilityResult` | internal/fleet/capability.go:315-418 | accepts exactly the results that meet the graph specification, in all three shapes and both legacy forms |
| `FleetGraph.TeamIsABijection` | internal/fleet/capability.go:433-483 | each requested expert has exactly one returned expert and one member, and is the reported leader exactly when that member leads |
| `FleetGraph.EdgesAreThoseRequested` | internal/fleet/capability.go:433-557 | in an accepted, newly created team the edges expert to resource are exactly the requested ones |
| `FleetGraph.ResourcesAreThoseRequested` | internal/fleet/capability.go:343-370 | nothing is missing and nothing is extra: the listed resources are those some expert asked for |
| `SuspensionCascade.Catalog.SuspendDelistedDependents` | internal/repository/plugin/dependency_suspension.go:161-192 | terminates; on success the outcome below; too large only with at least 630 dependents; rows change by delisting only, and the markers are those of the log |
| `SuspensionCascade.Catalog.SuspendDependency` | internal/repository/plugin/dependency_suspension.go:11-19 | one marker is added and the row delisted if it was listed |
| `SuspensionCascade.Catalog.DemoteEmbeddedChildren` | internal/repository/plugin/review.go:998-1013 | exactly the listed embedded children of the container in the Space are delisted |
| `Suspension.NoListedUser` | internal/repository/plugin/dependency_suspension.go:161-192 | afterwards no listed expert or team of the Space uses the target or anything suspended |
| `Suspension.SuspendedAreAffected` | internal/repository/plugin/dependency_suspension.go:161-192 | only plugins that depended on the target through listed plugins are suspended |
| `Suspension.SuspendedExactly` | internal/repository/plugin/dependency_suspension.go:161-192 | when affected embedded children use the target directly, the suspended set is exactly the backward-reachable set |
| `Suspension.TypedSuspendsExactly` | internal/repository/plugin/write.go:1170-1192 | in a catalog that keeps to its types, as the write path makes it, the suspended set is always exactly the backward-reachable set, and all of it is delisted |
| `Suspension.AffectedAreDelisted` | internal/repository/plugin/dependency_suspension.go:161-192 | when no embedded child taken down is used by others, every dependent ends up delisted |
| `Suspension.TakenDownFirst` | internal/repository/plugin/dependency_suspension.go:161-192 | a plugin embedded in the only plugin it uses is never suspended |
| `Suspension.MissedChild` | internal/repository/plugin/dependency_suspension.go:161-192 | outside the types: a graph where unused children alone do not make the set exact |
| `Suspension.MissedChildHappens` | internal/repository/plugin/dependency_suspension.go:161-192 | that run exists |
| `Suspension.StillListed` | internal/repository/plugin/dependency_suspension.go:161-192 | outside the types: a graph where a dependent stays listed |
| `Suspension.StillListedHappens` | internal/repository/plugin/dependency_suspension.go:161-192 | that run exists |
| `VersionLabels.ParseVersion` | internal/model/version.go:17-31 | accepts exactly trimmed labels of three unsigned 64-bit numbers and returns them |
| `VersionLabels.PrintParse` | internal/model/version.go:17-31 | printing and parsing a label gives it back |
| `VersionLabels.AdvancedMeans` | internal/model/version.go:70-79 | a label advances exactly when it is well formed and above the current one, or the current one cannot be ordered |
| `VersionLabels.NotRegressedMeans` | internal/model/version.go:43-66 | the draft rule is advance or unchanged |
| `VersionLabels.AdvancedIsStrictOrder` | internal/model/version.go:70-79 | irreflexive, asymmetric and transitive on all strings |
| `VersionLabels.AdvancedIsTotalOnLabels` | internal/model/version.go:70-79 | well-formed labels are ordered unless equal |
| `VersionLabels.Successor` | internal/migration/policy.go:119-132 | the carry loop gives the next number in base a thousand million, and nothing for the last two |
| `VersionLabels.NextLabel` | internal/migration/policy.go:71-132 | empty exactly when a label is too long or the greatest is one of the last two; otherwise the successor of the greatest, or 1.0.0, above every label ever carried, and releasable |
| `VersionLabels.ValidReleaseLabel` | internal/migration/release_validation.go:40-45 | accepts exactly three numbers of at most nine digits without surrounding space |
| `ReferencePlan.Build` | internal/backfill/referenceindex/plan.go:59-174 | each plan is complete exactly when source, relations, targets, pins and release evidence are unambiguous, and then holds the active relations |
| `ReferencePlan.ActiveEdgesMeaning` | internal/backfill/referenceindex/plan.go:112-156 | the edges are the active relations, no more and no less |
| `ReferencePlan.VersionLookup` | internal/backfill/referenceindex/plan.go:59-84 | the maps with their duplicate marks answer as the lists do |
| `ReferenceStore.Store.ApplyVersion` | internal/backfill/referenceindex/store.go:107-191 | succeeds exactly when the version has one complete snapshot under the given digest and nothing stored disagrees; then rows and marker are those of the snapshot and the count is what was missing; otherwise nothing changes |
| `ReferenceStore.AppliedCovers` | internal/backfill/referenceindex/store.go:130-170 | afterwards the version's rows are exactly the active relations of its snapshot |
| `ReferenceStore.MarkerCountsRows` | internal/backfill/referenceindex/store.go:171-186 | the marker's count is the number of those rows |
| `ReferenceStore.RerunChangesNothing` | internal/backfill/referenceindex/store.go:102-106 | a rerun is admitted, inserts nothing and changes nothing |
| `PreparedFiles.PrepareFiles` | internal/migration/plan.go:573-687 | on success every file is inline or stored but not both, the entry is inline, all lists agree and inline content is in budget; it fails only for a listed reason |
| `PreparedFiles.PlannedObjects` | internal/migration/objects.go:157-242 | accepts exactly publishable layouts and returns their stored files |
| `PreparedFiles.PreparedIsPublishable` | internal/migration/objects.go:157-242 | every prepared layout is publishable |
| `ArtifactResolver.Resolver.Load` | internal/migration/artifacts/resolve.go:190-222 | each key is fetched successfully at most once, the running total is the cached total and stays in budget |
| `ArtifactResolver.Resolver.Add` | internal/migration/artifacts/resolve.go:270-303 | paths stay distinct and the file total stays the sum, in budget; a repeated path only as the same file |
| `ArtifactResolver.Resolver.ReplaceEntry` | internal/migration/artifacts/resolve.go:366-381 | the entry's content is replaced and the total still is the sum |
| `ArtifactResolver.Resolver.Recount` | internal/migration/artifacts/resolve.go:417-431 | its size tests never refuse, and it finds the entry exactly when a usable one is there |
| `ArtifactResolver.Resolver.Resolve` | internal/migration/artifacts/resolve.go:224-440 | the budgets hold throughout; on success the entry is usable, every attachment not skipped is a file with its own content, or the one replacing it, every entry of the archive is a file, and no other path appears |
| `ArtifactResolver.Resolver.AddArchive` | internal/migration/artifacts/resolve.go:307-381 | every archive entry is a file with its content, the entry file with the replacing one, and no other path is added |
| `JsonDocument.ValidateUniqueFields` | internal/model/json_document.go:13-64 | a token stream is accepted exactly when it is one whole document with unique names at every level and at most 64 levels (section 4 of RFC 8259) |
| `JsonDocument.Value` | internal/model/json_document.go:17-54 | on a stream starting with a tree it accepts exactly when that tree is good and consumes exactly its tokens |
| `JsonDocument.PrefixFree` | internal/model/json_document.go:55-62 | no document's tokens begin another's, so a trailing token is never part of the document |
| `InetAton.ParseInetPart` | internal/service/probe.go:445-467 | reads exactly the numerals of the base that the prefix chooses, below 2^64 |
| `InetAton.WrittenPartReads` | internal/service/probe.go:445-467 | every number reads back in decimal, octal and hexadecimal spelling |
| `InetAton.ParseInetAton` | internal/service/probe.go:406-440 | the address returned is exactly the base-256 value the string denotes, below 2^32, and none otherwise |
| `InetAton.SpelledAddressReads` | internal/service/probe.go:406-467 | every 32-bit address in every one-to-four-part shape and mix of spellings reads back as itself |

## Left out

- SQL text, locking, isolation and column collation: a transaction is one atomic step, and strings compare exactly.
- Timestamps, operator fields, audit rows and report counters; primary-key collisions of derived relation, version, audit and placement ids.
- Hashes and derived ids: a hash is the value it covers and a derived id a datatype constructor, so collisions do not exist; scope strings are structured values.
- Apply: schema hash, database identity guard, source objects, baseline refresh and report texts. Creating the three conversion tables is not a step.
- MigrationStore.Store.TransferMigrationPlacements: sources are merged in mapping order, not in string order of their ids; `ApplyConflict.MergeOrderDoesNotMatter` shows that only the order of the rows can differ.
- Planner: orders by string comparison are any order (or an injective rank); member roles, leaders and metadata, duplicate relation identities, pins matched by snapshot comparison, icon and visibility issues and skill descriptions. MCP documents are taken as decoded, valid server maps.
- PlannerNodes.RewriteEdges: does not check member metadata, duplicate relation identities or historical pins.
- MigrationPlanner.Build: does not report icon issues, and takes text folding and cleaning, content fingerprints and digests as functions with stated facts: equal connector fingerprints mean equal servers; that alias retries eventually give a fresh alias is such a fact, limited to twice as many aliases as servers were captured, since the alias uses twelve digits of a digest. Whether a renamed plugin's files still fit is a function there, and treated on its own in `PreparedFiles`.
- The remaining final contracts of internal/migration/final_contract.go.
- CompleteInstallAttempt, which marks a row completed outside the lease, and the worker loop around the lease statements.
- Fleet: the HTTP exchange, replay headers and presence of nullable fields. Skills and connectors share one datatype; an absent skill market id is the empty one.
- Suspension.SuspendedExactly: the condition is sufficient only; on graphs outside the catalog's types, whether an affected child that does not use the target is found before its container goes down depends on the order of ids.
- Suspension.AffectedAreDelisted: sufficient for the same reason.
- Suspension: which plugin uses which in the frozen or live relations is a fixed relation; sources of one lookup are taken in any order, not in id order; the caller's rollback after an error.
- ReferencePlan: reasons and orders of plans and edges; a resource whose id begins with "version:" does not collide with a version mark; JSON decoding of relations is given, its duplicate check is the one in `JsonDocument`.
- PreparedFiles.PlannedObjects: does not model the ownership and namespace tests on the text of object keys, since keys are structured values.
- PreparedFiles.PrepareFiles: files come in any order instead of sorted by path; JSON lengths, text detection, media types and the normaliser are functions, and the normaliser keeps attachments.
- ArtifactResolver.Resolver.Resolve: decoding the package, the sidecar and the legacy pointer, archive unpacking, MIME guessing and the refusal of external pointers are inputs.
- JsonDocument: the lexer; a syntax error is a bad token.
- InetAton: shifts and ors of fields that do not overlap are sums; canonical IP literals and the unsafe-address tests.
- HTTP handlers, storage drivers, configuration, catalog queries, category administration and MCP field validation: mostly plumbing that would only add easy members.
