# Verification of the durable governance core

This project models the durable governance core of the control API and proves properties of the
model with Dafny: the transactional store of decisions, approvals and audit rows, the replicated
activation of policy bundles, the decision pipeline, the quota counters, the remediation loop,
capability contracts, schema migrations, and the text forms that the store and the metrics rely on.
`dafny verify dfyconfig.toml` checks the whole project.

Objects whose fields the service updates in place are classes, and each of their methods is proved
against a function of the old state. Such a function, and every function the theorems share with a
method, is in turn tied to a predicate that says what it means on the raw fields (the lemmas named
`...Decides`, `...Meaning` and `...Means`), and the methods promise that predicate too. Concurrency is modelled as runs of steps, where one step is one
session or transaction under the store's lock, and theorems about runs quantify over every sequence
of steps.

| module | what it models |
|---|---|
| Text, IsoTime | string order, sorting, timestamps as text |
| Binding | the part of a request that an approval binds |
| StoreTables, DecisionStores | decisions, approvals and audit rows, as values and as an object |
| ApprovalRuns, GrantProvenance | interleaved grants, resolutions, expiries, purges and recordings, and where a grant comes from |
| Retention | the retention purge and its dry run |
| PolicyBundles, PolicyLifecycles, PolicyReplicas | the bundle table, one replica's calls, interleaved replicas |
| Engines, Governance | the stages of an evaluation, and the pipeline over them |
| QuotaCounters | the Redis counters and their three readers |
| Drift | inventory drift, suggested repairs, verification |
| Remediation, RemediationRuns, RemediationReviews, RemediationCalls | the proposal lifecycle, serial and interleaved, who wins a review, and calls left alone |
| Capabilities | capability contracts, synchronisation, execution pins |
| RegistryParser | the registry's line parser and a canonical printer |
| Migrations | the versioned migrations on SQLite, with crashes |
| MetricLabels | label escaping and metric lines |

## Where the code falls short of what is expected of it

Each of these is stated as an exact condition, proved for all inputs, and has a lemma with an input
that fails.

- Purge prediction: a dry run selects rows by timestamp with a limit, and SQL leaves the order of
  equal timestamps open. The predicted counts bind a later run on the same state exactly when the
  decisions tied across the limit have as many approvals and as many audit rows
  (`Retention.PredictionBindsExactlyWhen`, `Retention.PredictionCanFail`); the set of decisions is
  determined exactly when there is no such tie (`Retention.SelectionIsDetermined`).
- Binding: the comment at `apps/control-api/app/approval_binding.py:12-13` says that enrichment
  cannot invalidate a bound approval. It holds for the two live counters; the live month-to-date cost
  is a bound field (`Binding.OverlayKeepsPayload`, `Binding.EnrichmentCanChangePayload`).
- Rollback: activating the bundle that is active already and rolling back does not restore it
  (`PolicyBundles.RollbackRestoresExactlyWhen`, `PolicyBundles.ReactivationCannotBeRolledBack`).
- Verdict: `final_verdict` by itself ignores a block of the second pack pass and an approval asked by
  the first (`Governance.VerdictIsMaximumExactlyWhen`, `Governance.VerdictCanMissThePack`); the
  pipeline never produces either alone (`Governance.PipelineVerdictIsMaximum`).
- Audit: the audited stage of an approval is never the quota or the pack stage
  (`Governance.ApprovalIsBlamedExactlyWhen`, `Governance.QuotaApprovalIsBlamedElsewhere`),
  and a block by telemetry alone is audited as no stage, or as risk
  (`Governance.TelemetryBlockIsUnexplained`).
- Remediation: updates of proposals are not guarded by the status that was read, so overlapping
  calls can lower a stage and leave a terminal one. The rank rises on every write exactly when every
  write finds the stage its call last saw (`RemediationRuns.RankRisesExactlyWhenUndisturbed`,
  `RemediationRuns.RankCanFall`).
- Reviews: of interleaved approve and reject calls at most one wins
  (`RemediationRuns.AtMostOneResolutionWins`), and there are runs in which none does: the approval has
  expired, it was resolved directly, or a purge comes between the session that resolves it and the one
  that appends the audit row, after which no review ever wins
  (`RemediationReviews.ExpiryLetsNobodyWin`, `RemediationReviews.DirectResolutionLetsNobodyWin`,
  `RemediationReviews.PurgeLetsNobodyWin`, `RemediationReviews.PurgedApprovalIsSpent`). When exactly one wins is
  `RemediationReviews.ExactlyOneWinsExactlyWhen`.
- Capabilities: the active map and the pins read at most 500 rows, the latest updated first. The map
  is complete exactly up to that number (`Capabilities.ActiveMapIsCompleteExactlyWhen`); it agrees with
  a registry just synchronised exactly when every entry's contract has fewer than 500 others that are
  not older, and a contract that was active already is not updated
  (`Capabilities.SyncedMapEqualsRegistryExactlyWhen`, `Capabilities.SyncedNameCanBeMissing`).
- Registry: an item at indent 4 is dropped when no list is open, while at indent 6 it is added to
  `allowed_namespaces` (`RegistryParser.IndentsAgreeExactlyWhen`, `RegistryParser.IndentsCanDiffer`).
- Migrations: version 004 indexes a column that version 006 adds, so a start-up on older tables
  completes only under a condition (`Migrations.CompletesExactlyWhen`,
  `Migrations.FirstReleaseIsStuck`); and a ledger entry is trusted
  without looking, so the schema is full only if the ledger was honest
  (`Migrations.SchemaIsFullExactlyWhen`, `Migrations.OverclaimedStaysBare`).

## Model

| member | source | states |
|---|---|---|
| `Text.LessTotal` | apps/control-api/app/decision_store.py:2027-2040 | code-point order, by which SQL compares timestamps and Python sorts names, is total; with `LessIrreflexive` and `LessTransitive` it is a strict linear order |
| `Text.LessTransitive` | apps/control-api/app/decision_store.py:2027-2040 | code-point order is transitive |
| `Text.LessAppend` | apps/control-api/app/decision_store.py:2027-2040 | strings of equal length decide the order before anything that follows them |
| `Text.SortCanonical` | apps/control-api/app/approval_binding.py:51-69 | sorting forgets exactly the order of a list: two lists sort alike if and only if they are permutations of each other |
| `Text.SortIdempotent` | apps/control-api/app/approval_binding.py:51-69 | sorting twice is sorting once |
| `IsoTime.BeforeIsEarlier` | apps/control-api/app/decision_store.py:48-53 | field-by-field order of calendar fields is time order, over the proleptic Gregorian calendar with its leap years |
| `IsoTime.FormatOrder` | apps/control-api/app/decision_store.py:48-49 | code-point order of the printed fields is field-by-field order, also where a zero fraction is omitted |
| `IsoTime.TextOrderIsTimeOrder` | apps/control-api/app/decision_store.py:48-53 | for all instants, the stored texts compare as the instants do |
| `IsoTime.ParseInvertsIso` | apps/control-api/app/decision_store.py:48-53 | parsing a stored timestamp gives back the instant |
| `Binding.BindingPayload` | apps/control-api/app/approval_binding.py:51-69 | the result has exactly the bound fields: the groups sorted and with the same number of each, the tenant where it is a text that is not empty and otherwise the team, and every other field as given, with null and absence read as the empty text |
| `Binding.PayloadBinds` | apps/control-api/app/approval_binding.py:51-69 | the same of the function that the other lemmas use |
| `Binding.PayloadIsCanonical` | apps/control-api/app/approval_binding.py:15-69 | two requests have one payload exactly when they agree on every bound field, stated on the raw fields: groups in any order, the tenant or else the team, and null and absence read as empty |
| `Binding.PayloadIsFixedPoint` | apps/control-api/app/approval_binding.py:51-82 | a payload is its own payload, so a digest recomputed from a stored request is the stored digest |
| `Binding.OverlayKeepsPayload` | apps/control-api/app/approval_binding.py:11-41 | enrichment keeps the payload exactly when it changes no bound field |
| `Binding.EnrichmentCanChangePayload` | apps/control-api/app/approval_binding.py:11-41 | a concrete enrichment, by the live month-to-date cost, that changes the payload |
| `StoreTables.StaleTestsAgree` | apps/control-api/app/decision_store.py:2027-2068 | the SQL test on text and the Python test on parsed time expire exactly the same rows, those pending whose time has come |
| `StoreTables.ExpireStaleKeeps` | apps/control-api/app/decision_store.py:2027-2040 | set-wise expiry keeps the table invariant and only moves statuses forward |
| `StoreTables.ExpireIfNeededKeeps` | apps/control-api/app/decision_store.py:2042-2068 | expiry of one row keeps the invariant, and a row still pending after it is still in time |
| `StoreTables.ExpireStaleExpires` | apps/control-api/app/decision_store.py:2027-2040 | set-wise expiry changes exactly the pending rows whose time has come, in status and resolution time only |
| `StoreTables.ExpireIfNeededExpires` | apps/control-api/app/decision_store.py:2042-2068 | expiry of one row changes that row at most, under the same condition |
| `StoreTables.LookupFindsAccessible` | apps/control-api/app/decision_store.py:677-717 | a caller confined to a tenant sees an approval exactly when its decision is there and belongs to that tenant, or to that team where it has no tenant |
| `StoreTables.IsSelfMeaning` | apps/control-api/app/decision_store.py:857-882 | the reviewer is the requester when they are equal without case and outer blanks, the requester being the subject of the decision, else the subject and else the owner of its request |
| `StoreTables.ResolveMeaning` | apps/control-api/app/decision_store.py:795-914 | when a resolution succeeds, when each of its five refusals comes, and the whole new state of either |
| `StoreTables.ResolveKeeps` | apps/control-api/app/decision_store.py:795-914 | a resolution, successful or not, keeps the invariant: a resolved row was resolved in time by someone other than the requester |
| `StoreTables.ConsumeKeeps` | apps/control-api/app/durable_governance.py:145-173 | the consuming transaction keeps the invariant whatever its outcome |
| `StoreTables.PersistKeeps` | apps/control-api/app/durable_governance.py:17-97 | recording an evaluation with its approval and audit rows keeps every foreign key and gives a decision at most one approval |
| `StoreTables.PersistRecords` | apps/control-api/app/durable_governance.py:17-97 | what a recording adds, field by field, and that it changes nothing else |
| `StoreTables.AppendAuditKeeps` | apps/control-api/app/decision_store.py:1988-2025 | an audit row that fits its keys keeps the invariant |
| `DecisionStores.DecisionStore.ExpireStaleApprovals` | apps/control-api/app/decision_store.py:2027-2040 | expires all stale rows at once and returns how many there were |
| `DecisionStores.DecisionStore.ExpireApprovalIfNeeded` | apps/control-api/app/decision_store.py:2042-2068 | expires the row if its time has come and touches nothing else |
| `DecisionStores.DecisionStore.GetApproval` | apps/control-api/app/decision_store.py:677-717 | after expiry there is a row exactly when the approval exists and, for a caller confined to a tenant, its decision exists and has that tenant, or that team where its tenant is empty |
| `DecisionStores.DecisionStore.ResolveApproval` | apps/control-api/app/decision_store.py:795-914 | succeeds exactly on an approval accessible to the caller that is pending and in time, for a reviewer who is not the requester, and then stores exactly status, reviewer, comment and time; each refusal comes under its own condition and changes nothing but expiry |
| `DecisionStores.DecisionStore.ConsumeApproval` | apps/control-api/app/decision_store.py:588-611 | consumes exactly an approved unused row and says whether it did |
| `DecisionStores.DecisionStore.AppendAuditMeta` | apps/control-api/app/decision_store.py:1988-2025 | inserts the row exactly when its keys fit |
| `DecisionStores.DecisionStore.PersistEvaluation` | apps/control-api/app/durable_governance.py:17-97 | one transaction or nothing: one new decision that stores verdict, policy digest, pins, request, request digest and time as given, its audit row, and where approval is asked one pending approval that expires ttl seconds later, with its audit row; all earlier rows stay |
| `DecisionStores.DecisionStore.ConsumeAndAudit` | apps/control-api/app/durable_governance.py:145-173 | update and audit row commit together or not at all |
| `DecisionStores.DecisionStore.DecisionAllows` | apps/control-api/app/durable_governance.py:118-144 | true exactly when the decision exists, was made for a request of the same digest, and policy and each pin are the same or unknown on one side |
| `DecisionStores.DecisionStore.ApprovalGrantsAllow` | apps/control-api/app/durable_governance.py:99-173 | grants exactly on an approved unused approval whose decision authorises the request, policy and pins, unless the audit identifier is taken; then consumes it and appends the audit row, and otherwise changes nothing but expiry |
| `DecisionStores.GrantMeaning` | apps/control-api/app/durable_governance.py:99-173 | the three endings of a granting call and the state each leaves |
| `DecisionStores.RecordedApprovalGrantsExactlyWhen` | apps/control-api/app/durable_governance.py:17-173 | end to end: an evaluation recorded and approved in time grants a later call if and only if its request has the same digest and its policy and each of its pins equal those recorded or are unknown on one side |
| `DecisionStores.UninterruptedCallIsSerial` | apps/control-api/app/durable_governance.py:99-173 | from every reachable world, an interleaved granting call that nothing interrupts is granted exactly when the serial call is, and leaves the same tables |
| `DecisionStores.DecisionStore.PurgeRetained` | apps/control-api/app/decision_store.py:926-1034 | refuses a limit out of range and a cutoff before all time; otherwise expires due approvals and counts the oldest decisions below the cutoff, up to the limit, with all that refers to them, and removes just these unless told not to |
| `DecisionStores.DecisionStore.DeleteOrCount` | apps/control-api/app/decision_store.py:975-1034 | counts the rows that belong to the selected decisions and deletes them unless told not to |
| `ApprovalRuns.NoApprovalGrantsTwice` | apps/control-api/app/durable_governance.py:99-173 | under every interleaving no approval grants two calls, and as many calls were granted as `approval_consumed` events were written |
| `ApprovalRuns.GrantsAreJustified` | apps/control-api/app/durable_governance.py:99-173 | at the step that grants, the approval is approved, unused and properly resolved, and its decision still exists and matches the request, the policy and the capability pins that the call has read |
| `ApprovalRuns.AuthorisesMeaning` | apps/control-api/app/durable_governance.py:121-144 | the digest and pin checks, spelled out, are those the runs are built on |
| `GrantProvenance.StepTraced` | apps/control-api/app/decision_store.py:323-347 | no step changes a decision or an approval's origin, and an approval comes to be approved only by a resolution |
| `GrantProvenance.OriginsReach` | apps/control-api/app/durable_governance.py:17-97 | in every run each approval was opened by a recorded evaluation, and each approved or used one was approved by a later resolution |
| `GrantProvenance.GrantsHaveProvenance` | apps/control-api/app/durable_governance.py:17-173 | in every interleaved run a call is granted only on an evaluation recorded earlier in the run and approved after that, in time and not by its requester, for a request of the same digest and with policy and pins that agree |
| `ApprovalRuns.ApprovalsStayConsistent` | apps/control-api/app/decision_store.py:547-611 | in every run: consumed exactly when used, pending exactly when unresolved, resolved in time by another person, each approval the only one of an existing decision that required it |
| `ApprovalRuns.StatusOnlyMovesForward` | apps/control-api/app/decision_store.py:588-611 | over every continuation of every run a status only moves pending to approved, rejected or expired and approved to consumed, and a purged approval never returns |
| `ApprovalRuns.ApplyKeeps` | apps/control-api/app/decision_store.py:323-347 | every session or transaction keeps the run invariant and grants at most its own call |
| `ApprovalRuns.OutcomeKeeps` | apps/control-api/app/decision_store.py:323-347 | no step outside a granting call consumes an approval |
| `ApprovalRuns.GrantCounts` | apps/control-api/app/durable_governance.py:145-173 | a grant adds exactly one consumed event to the log |
| `Retention.TextDeletableIsDeletable` | apps/control-api/app/decision_store.py:955-975 | the query on text selects exactly the decisions older than the cutoff |
| `Retention.DryRunPredicts` | apps/control-api/app/decision_store.py:926-1034 | on one state and selection a dry run reports exactly the rows a real run deletes and deletes none |
| `Retention.SelectionIsDetermined` | apps/control-api/app/decision_store.py:955-975 | the set of selected decisions is determined exactly when no timestamp is shared across the limit |
| `Retention.PredictionBindsExactlyWhen` | apps/control-api/app/decision_store.py:926-1034 | the counts a dry run predicts bind every purge of the same state, whatever its query selects, if and only if decisions tied across the limit have as many approvals and as many audit rows |
| `Retention.PredictionCanFail` | apps/control-api/app/decision_store.py:926-1034 | concrete tied decisions for which a dry run predicts one deleted audit row and a real run deletes none |
| `Retention.PurgeKeeps` | apps/control-api/app/decision_store.py:926-1034 | a purge leaves no approval or audit row without its decision |
| `Retention.PurgeMeaning` | apps/control-api/app/decision_store.py:926-1034 | the rows a purge removes, keeps, expires and counts, stated row by row |
| `Retention.RealRunRemovesOldest` | apps/control-api/app/decision_store.py:926-1034 | whatever a real run removes is below the cutoff and no younger than what it keeps |
| `Retention.RealRunMakesProgress` | apps/control-api/app/decision_store.py:926-1034 | a real run removes as many old decisions as the limit allows, or all |
| `Retention.PurgeTerminates` | apps/control-api/app/decision_store.py:926-1034 | enough real runs with any limit of one or more leave no decision older than the cutoff |
| `Retention.SelectOldest` | apps/control-api/app/decision_store.py:955-975 | a selection is computed: distinct, below the cutoff, oldest first, up to the limit |
| `PolicyBundles.UpsertKeeps` | apps/control-api/app/decision_store.py:1527-1628 | recording a candidate keeps the table invariant, the active bundle and the highest generation |
| `PolicyBundles.ActivateKeeps` | apps/control-api/app/decision_store.py:1794-1866 | an activation makes its target the one active bundle and raises the highest generation by exactly one; the bundle replaced becomes the latest previous |
| `PolicyBundles.ActiveIsNewest` | apps/control-api/app/decision_store.py:1694-1728 | the active bundle carries the highest generation |
| `PolicyBundles.RollbackRestoresExactlyWhen` | apps/control-api/app/decision_store.py:1868-1894 | a rollback after activating B over A restores A if and only if B was another bundle and A is still valid |
| `PolicyBundles.ReactivationCannotBeRolledBack` | apps/control-api/app/decision_store.py:1868-1894 | a concrete table whose active bundle, activated again, cannot be restored by a rollback |
| `PolicyBundles.SecondRollbackUndoesTheFirst` | apps/control-api/app/decision_store.py:1868-1894 | two rollbacks restore A and then B, as the only possible outcomes, each raising the generation by one |
| `PolicyBundles.BundleStore.FindByDigest` | apps/control-api/app/decision_store.py:1630-1655 | the row of this content, or none when there is none |
| `PolicyBundles.BundleStore.UpsertCandidate` | apps/control-api/app/decision_store.py:1527-1628 | the row of the content has the source and validity given, keeps status and generation if it was there and is a candidate without one if it is new; no other row changes |
| `PolicyBundles.BundleStore.ActivateBundle` | apps/control-api/app/decision_store.py:1794-1866 | activates the row of the content with the next generation, or refuses and changes nothing |
| `PolicyBundles.BundleStore.LatestPrevious` | apps/control-api/app/decision_store.py:1730-1763 | the previous bundle activated last, if any |
| `PolicyBundles.BundleStore.RollbackBundle` | apps/control-api/app/decision_store.py:1868-1894 | reactivates the latest previous bundle, or refuses and changes nothing |
| `PolicyReplicas.TableStaysConsistent` | apps/control-api/app/decision_store.py:1527-1894 | in every interleaved run at most one bundle is active, with the largest generation; generations are distinct and missing exactly for candidates |
| `PolicyReplicas.ReplicasAgreePerGeneration` | apps/control-api/app/policy_lifecycle.py:208-255 | in every interleaved run replicas at one nonzero generation hold one digest, and none is ahead of the store |
| `PolicyReplicas.GenerationsAreGrantedInOrder` | apps/control-api/app/decision_store.py:1794-1866 | every generation is granted once, to one digest, as the next above all earlier ones |
| `PolicyReplicas.GrantsAndObservationsOnlyGrow` | apps/control-api/app/policy_lifecycle.py:208-319 | over every continuation no grant changes and no observed generation decreases |
| `PolicyReplicas.UninterruptedActivation` | apps/control-api/app/policy_lifecycle.py:419-466 | from every reachable world, an activation that nothing interrupts makes its bundle the active one of the next generation, which the replica then uses and knows |
| `PolicyReplicas.UninterruptedRollback` | apps/control-api/app/policy_lifecycle.py:468-496 | from every reachable world, a rollback that nothing interrupts reactivates the latest previous bundle with the next generation if it is valid, and otherwise changes nothing |
| `PolicyReplicas.OneSyncConverges` | apps/control-api/app/policy_lifecycle.py:208-255 | once activations stop, a replica that completes one successful sync agrees with the store from then on |
| `PolicyReplicas.AllReplicasConverge` | apps/control-api/app/policy_lifecycle.py:208-255 | once activations stop, one successful sync each makes all replicas agree with the store |
| `PolicyReplicas.ApplyKeeps` | apps/control-api/app/policy_lifecycle.py:208-496 | every store session or local update of any replica keeps the invariant |
| `PolicyLifecycles.PolicyLifecycle.Sync` | apps/control-api/app/policy_lifecycle.py:208-255 | on success the replica is in step with the store; on failure it keeps what it had; a reachable valid active record always loads |
| `PolicyLifecycles.PolicyLifecycle.ActivateCandidate` | apps/control-api/app/policy_lifecycle.py:419-466 | a successful activation raises the generation by one and leaves the replica in step |
| `PolicyLifecycles.PolicyLifecycle.EnsureBootstrapped` | apps/control-api/app/policy_lifecycle.py:257-319 | a reachable valid active bundle is used, else with none active the valid seed is activated; a failure raises exactly unless the last known good bundle may be kept, and says so |
| `PolicyLifecycles.PolicyLifecycle.GetCandidate` | apps/control-api/app/policy_lifecycle.py:134-154 | what the process holds wins; only when it holds nothing is the record loaded, which succeeds exactly when its source is in reach, and a valid result is kept as a candidate |
| `PolicyLifecycles.PolicyLifecycle.Held` | apps/control-api/app/policy_lifecycle.py:134-143 | the process holds something under an id exactly as a candidate, as the bundle in use, or as the previous one |
| `PolicyLifecycles.PolicyLifecycle.Activate` | apps/control-api/app/policy_lifecycle.py:419-466 | succeeds exactly on a valid bundle that the process holds under the id or, holding none, loads from the record; success leaves the replica in step, one generation on; a refusal changes neither store nor bundle |
| `PolicyLifecycles.PolicyLifecycle.Rollback` | apps/control-api/app/policy_lifecycle.py:468-496 | where the store has a previous bundle, success reactivates the latest one; where it has none, success activates the one this process used before; either leaves the replica in step, one generation on; a failure keeps its bundle |
| `PolicyLifecycles.Simulate` | apps/control-api/app/policy_lifecycle.py:321-392 | each counter is the number of recorded decisions that go from the one verdict to the other; failures and changes from block to approval are counted together |
| `PolicyLifecycles.ImpactCounts` | apps/control-api/app/policy_lifecycle.py:321-392 | the same of the function the loop computes |
| `PolicyLifecycles.ImpactConserves` | apps/control-api/app/policy_lifecycle.py:321-392 | the published counters account for every decision with a request, each once |
| `Engines.EvaluatePack` | governance/policy-packs/evaluate.py:109-184 | the pack stage blocks exactly when its pack is unknown or the row breaks one of the five rules, naming exactly those broken; otherwise it asks for approval exactly when the given risk reaches the minimum |
| `Engines.PackDecides` | governance/policy-packs/evaluate.py:109-184 | the same of the function that the pipeline theorems use |
| `Engines.PromptDecides` | governance/prompt-security/evaluate.py:55-98 | the prompt stage blocks injections, secrets, and personal data in a sensitive workload, and warns of other personal data |
| `Engines.EvaluateQuota` | governance/quota/evaluate.py:65-117 | the quota stage blocks exactly a team that is not onboarded or a request that would break one of the four limits, naming exactly those; a limit scaled to zero is no limit |
| `Engines.QuotaDecides` | governance/quota/evaluate.py:65-117 | the same of the function that the pipeline theorems use |
| `Engines.ScaledDropsFraction` | governance/quota/evaluate.py:83-100 | a scaled limit is the exact product without its fraction, towards zero |
| `Engines.EvaluateModelPolicy` | governance/registry/evaluate.py:103-183 | the registry stage forbids exactly a registered model of which the request breaks one of the eight rules, naming exactly those; an unregistered model passes with a note |
| `Engines.RegistryDecides` | governance/registry/evaluate.py:103-183 | the same of the function that the pipeline theorems use |
| `Engines.EvaluateCost` | governance/cost/evaluate.py:143-203 | the cost stage blocks exactly a row over one of the five hard limits, naming exactly those, and otherwise warns of exactly the thresholds it reaches |
| `Engines.CostDecides` | governance/cost/evaluate.py:143-203 | the same of the function that the pipeline theorems use |
| `Engines.EvaluateRisk` | governance/risk/evaluate.py:155-292 | the score is the sum of the points due, capped at 100, the level is the highest whose threshold it reaches, and the factors are exactly those that apply, with their points |
| `Engines.RiskDecides` | governance/risk/evaluate.py:145-292 | the same of the function that the pipeline theorems use |
| `Engines.FactorPoints` | governance/risk/evaluate.py:155-243 | the score of the request is a sum of nine independent terms |
| `Engines.RegistryPoints` | governance/risk/evaluate.py:243-292 | what the registry adds to the score |
| `Engines.AllFactorsMean` | governance/risk/evaluate.py:155-276 | a factor is listed exactly when its condition holds, with its weight |
| `Engines.EvaluateApproval` | governance/approval/evaluate.py:133-217 | the approval stage blocks exactly when something blocks, else asks for approval exactly when something asks for review, naming exactly what does |
| `Engines.ApprovalDecides` | governance/approval/evaluate.py:133-217 | the same of the function that the pipeline theorems use |
| `Governance.EvaluateGovernanceRequest` | apps/control-api/app/governance_service.py:194-361 | each stage of the result means what its engine promises on the part of the row, of the policies and of the other stages that feeds it: the second pack pass on the risk level, the quota on the pack's multiplier or the telemetry, the approval on cost and risk; the verdict and the reasons are those of the lemmas below |
| `Governance.StagesDecide` | apps/control-api/app/governance_service.py:194-361 | the same of the function that the other theorems use, also when the pack blocks and nothing else is asked |
| `Governance.QuotaUnderDecides` | apps/control-api/app/governance_service.py:285-316 | with the backend out of reach the quota stage blocks, asks, or allows with a marker after its own reasons, as decided for that case |
| `Governance.VerdictDecides` | apps/control-api/app/governance_service.py:121-361 | the verdict, from request, policies and telemetry alone: it blocks if and only if one of nine causes holds, and otherwise asks for approval if and only if one of five holds |
| `Governance.ReasonsDecide` | apps/control-api/app/governance_service.py:121-361 | the reasons are those of the telemetry, if it blocks, and then those of the first cause; without a cause the marker of a quota backend passed by stays |
| `Governance.VerdictIsMaximumExactlyWhen` | apps/control-api/app/governance_service.py:121-159 | on any stage results the verdict is their maximum severity if and only if a block of the second pack pass comes with a block of a stage that is consulted, and approval asked by the first pass with a block or review of one |
| `Governance.VerdictCanMissThePack` | apps/control-api/app/governance_service.py:121-159 | concrete stages where either result, alone, is lost and the verdict is to allow |
| `Governance.PackPassesAgree` | governance/policy-packs/evaluate.py:109-184 | the two passes block alike; only the second can ask for approval |
| `Governance.PipelineVerdictIsMaximum` | apps/control-api/app/governance_service.py:194-361 | in the pipeline the verdict always is the maximum severity over the stages |
| `Governance.ShortCircuitIsSound` | apps/control-api/app/governance_service.py:241-361 | skipping the stages after a pack block changes neither verdict nor reasons |
| `Governance.VerdictHasFirstCause` | apps/control-api/app/governance_service.py:121-159 | the verdict is the one its first cause in precedence calls for, and to allow when there is none |
| `Governance.BlockIsBlamedOnFirstBlocker` | apps/control-api/app/audit_service.py:37-70 | for a block not caused by telemetry the audited stage is the first in precedence that blocked |
| `Governance.ApprovalIsBlamedExactlyWhen` | apps/control-api/app/audit_service.py:37-70 | for an approval the audited stage is the first cause exactly when neither quota nor pack asked for it |
| `Governance.QuotaApprovalIsBlamedElsewhere` | apps/control-api/app/audit_service.py:37-70 | concrete stages where the quota alone asks for approval and the audit names the approval stage |
| `Governance.TelemetryBlockIsUnexplained` | apps/control-api/app/audit_service.py:37-70 | a block by telemetry alone is audited as risk if that is critical and otherwise without a stage |
| `Governance.PackRises` | governance/policy-packs/evaluate.py:102-184 | the pack stage rises with the row and with the risk level |
| `Governance.PromptRises` | governance/prompt-security/evaluate.py:76-98 | the prompt stage rises with the row |
| `Governance.QuotaRises` | governance/quota/evaluate.py:65-117 | the quota stage rises with the row, also under negative multipliers |
| `Governance.RegistryRises` | governance/registry/evaluate.py:103-170 | the registry stage rises with the row |
| `Governance.CostRises` | governance/cost/evaluate.py:143-185 | the cost stage rises with the row |
| `Governance.RiskRises` | governance/risk/evaluate.py:145-269 | score and level rise with the row when the weights a raise can add are not negative |
| `Governance.ToolAccessNeedsItsWeight` | governance/risk/evaluate.py:155-243 | the condition on the weights is needed: below the cap, turning tool access on keeps the score from falling exactly when its weight is not negative |
| `Governance.ApprovalRises` | governance/approval/evaluate.py:133-197 | the approval stage rises with the row, with the cost decision and with the risk level |
| `Governance.StagesRise` | apps/control-api/app/governance_service.py:194-361 | the maximum severity rises with the row through cost into approval and through risk into approval and the second pack pass |
| `Governance.EvaluationIsMonotone` | apps/control-api/app/governance_service.py:194-361 | raising token counts, request counters or costs, or turning a flag on, never lowers the verdict |
| `QuotaCounters.StateMirrorsLog` | apps/control-api/app/quota_state_service.py:45-72 | after every sequence of increments each counter holds the logged figure of its window and outlives the window |
| `QuotaCounters.NothingAfterLast` | apps/control-api/app/quota_state_service.py:45-72 | with a clock that does not go back nothing is logged in a window after the last increment |
| `QuotaCounters.ReadersReturnTheLog` | apps/control-api/app/quota_state_service.py:169-243 | the counter reader, the legacy script and the normalising reader all return the logged requests of the minute and tokens of the day, so no expiry drops a live window |
| `QuotaCounters.SameBucket` | apps/control-api/app/quota_state_service.py:132-134 | two times share a bucket exactly when the later is within a minute of the bucket start |
| `QuotaCounters.QuotaRedis.IncrQuotaCounters` | apps/control-api/app/quota_state_service.py:45-72 | the increment script updates both counters, their expiries and the hash, and returns both counters |
| `QuotaCounters.QuotaRedis.IncrLogged` | apps/control-api/app/quota_state_service.py:245-291 | an increment returns the logged figures of its own minute and day |
| `Drift.DiffModels` | apps/control-api/app/drift_service.py:46-57 | missing and unexpected are the names without a match on the other side, in order |
| `Drift.MatchMeaning` | apps/control-api/app/drift_service.py:36-43 | two names match if and only if what is left of one in lower case, letters and digits only, stands somewhere in what is left of the other |
| `Drift.NormalizeLetters` | apps/control-api/app/drift_service.py:36-37 | normalising goes letter by letter and drops what is neither letter nor digit |
| `Drift.TaggedNameMatches` | apps/control-api/app/drift_service.py:40-43 | a model's name matches itself with a tag |
| `Drift.DriftMeaning` | apps/control-api/app/drift_service.py:60-83 | what a backend lists as configured, live, missing and unexpected, with a healthy probe and without one |
| `Drift.StatusMeaning` | apps/control-api/app/drift_service.py:86-112 | the status of both backends, and which summary it has |
| `Drift.InSyncMeaning` | apps/control-api/app/drift_service.py:60-83 | a backend is in sync exactly when its probe is healthy and every configured model has a live match and the other way round |
| `Drift.BuildDriftActions` | apps/control-api/app/drift_actions.py:37-158 | the suggestions are exactly the repairs its backends call for, an issue and a pull request, and none for a status in sync, in the order of the nested loops |
| `Drift.ActionsMeaning` | apps/control-api/app/drift_actions.py:37-158 | the same of the function that the loop theorems use |
| `Drift.SuggestionsAreComplete` | apps/control-api/app/drift_actions.py:46-106 | every missing model is suggested for pulling and every unexpected one for the inventory, and no other model is suggested |
| `Drift.BackendRepaired` | apps/control-api/app/drift_service.py:60-83 | a backend whose missing models are live and whose unexpected ones are configured is in sync |
| `Drift.RepairCompletes` | apps/control-api/app/drift_actions.py:37-106 | with healthy probes, carrying out every suggestion brings the next status in sync |
| `Drift.MissingFromStatus` | apps/control-api/app/verification_contract.py:58-79 | the loop lists exactly the nonblank names some backend lacks, each once, in order of first mention |
| `Drift.BuildVerificationSnapshot` | apps/control-api/app/verification_contract.py:101-160 | one check for each of the three questions with its status, and an outcome that is verified exactly when the inventory is in sync and no baseline name is still missing |
| `Drift.ClosureMeaning` | apps/control-api/app/verification_contract.py:82-98 | the closure splits the baseline into the names missing now and the others, and is closed exactly when none is missing now |
| `Drift.SnapshotVerifiesExactlyWhen` | apps/control-api/app/verification_contract.py:101-160 | the snapshot, as a function, verifies exactly when the inventory is in sync and no baseline name is still missing |
| `Drift.BuiltStatusVerifiesWhenInSync` | apps/control-api/app/verification_contract.py:101-160 | a status computed from probes verifies exactly when it is in sync, whatever the baseline |
| `Drift.ClosedLoopVerifies` | apps/control-api/app/verification_contract.py:82-160 | the whole loop: after the repair, verification against the old status succeeds with every baseline-missing model resolved and none still missing |
| `Remediation.TransitionsClimb` | apps/control-api/app/remediation_service.py:40-62 | the transition table only leads upwards and leads nowhere from a terminal stage |
| `Remediation.SelectAction` | apps/control-api/app/remediation_service.py:65-94 | with an index the actionable suggestion of that number, else with a kind the first one of it, else the first one of the kind preferred among those there are; and when it fails |
| `Remediation.SelectMeaning` | apps/control-api/app/remediation_service.py:65-94 | the same of the function that the theorems use |
| `Remediation.FirstPreferredMeaning` | apps/control-api/app/remediation_service.py:89-94 | the preference list is tried in order: the first kind that is offered wins |
| `Remediation.DriftIsActionable` | apps/control-api/app/remediation_service.py:65-94 | a drifting status always offers an action; the default is a suggestion of the first preferred kind offered |
| `Remediation.RemediationService.CreateFromDrift` | apps/control-api/app/remediation_service.py:97-125 | opens a proposal exactly when the inventory drifts and an action can be selected |
| `Remediation.RemediationService.EvaluatePolicy` | apps/control-api/app/remediation_service.py:128-185 | moves a proposed proposal by its verdict together with the recorded evaluation, raising its rank, or changes nothing |
| `Remediation.RemediationService.ResolveProposal` | apps/control-api/app/remediation_service.py:188-228 | succeeds exactly for a proposal waiting for review whose approval can be resolved now and whose decision can take the audit row; success resolves both alike and raises the rank, a failure leaves the proposal |
| `Remediation.RemediationService.PreparePrDraft` | apps/control-api/app/remediation_service.py:231-295 | succeeds exactly from approved and raises the rank |
| `Remediation.RemediationService.MarkApplied` | apps/control-api/app/remediation_service.py:298-320 | succeeds exactly from pr_created and raises the rank |
| `Remediation.RemediationService.VerifyRuntime` | apps/control-api/app/remediation_service.py:323-379 | succeeds exactly from applied or verifying and ends in verified exactly when the drift verifies against the stored snapshot |
| `RemediationRuns.ProposalsAgreeWithApprovals` | apps/control-api/app/remediation_service.py:128-379 | under every interleaving with the rest of the service a proposal at approved or later was allowed or has an approved or consumed approval, and a rejected one was blocked or has a rejected approval, while the row is retained |
| `RemediationRuns.AtMostOneResolutionWins` | apps/control-api/app/remediation_service.py:188-228 | of all interleaved calls that approve or reject one proposal at most one gets past the approval |
| `RemediationReviews.ExactlyOneWinsExactlyWhen` | apps/control-api/app/remediation_service.py:188-228 | in every run in which all reviews of a proposal have run to their end exactly one wins if and only if the first of them to reach the approval, the requester apart, finds it pending and in time and finds the decision still there when it appends its audit row; otherwise none wins |
| `RemediationReviews.ExpiryLetsNobodyWin` | apps/control-api/app/remediation_service.py:188-228 | a run from the start in which an approve and a reject call both come too late and neither wins |
| `RemediationReviews.PurgeLetsNobodyWin` | apps/control-api/app/remediation_service.py:206-228 | a run from the start in which the approval is approved, a purge then removes its decision, and the review ends without moving the proposal |
| `RemediationReviews.SpentApprovalsNeverWin` | apps/control-api/app/remediation_service.py:188-228 | once the approval of a proposal is closed while no review is through, no later review ever gets past it |
| `RemediationReviews.PurgedApprovalIsSpent` | apps/control-api/app/remediation_service.py:206-228 | so it is after that purge, in every continuation |
| `RemediationReviews.DirectResolutionLetsNobodyWin` | apps/control-api/app/remediation_service.py:206-228 | a run from the start in which the approval is resolved directly and the review that follows does not move the proposal |
| `RemediationReviews.UndisturbedReviewWins` | apps/control-api/app/remediation_service.py:188-228 | a run from the start in which one review wins |
| `RemediationReviews.SessionCloses` | apps/control-api/app/decision_store.py:884-899 | an approval session held for anyone but the requester leaves the approval closed for good |
| `RemediationReviews.History` | apps/control-api/app/remediation_service.py:206-228 | a review that is through has held an approval session that found the approval open and an audit session that found the decision |
| `RemediationRuns.ApprovalYieldsExactlyWhen` | apps/control-api/app/decision_store.py:795-914 | a call gets past the approval exactly when the row is pending and in time and the reviewer is not the requester |
| `RemediationRuns.RankRisesExactlyWhenUndisturbed` | apps/control-api/app/remediation_service.py:40-62 | in a run every write raises the rank of its proposal if and only if every write finds the stage its call last saw |
| `RemediationRuns.WriteRisesExactlyWhenUndisturbed` | apps/control-api/app/decision_store.py:1178-1267 | the same for one write, while no stage has fallen back yet |
| `RemediationRuns.UndisturbedRunsClimb` | apps/control-api/app/remediation_service.py:40-62 | in such a run stages only climb and a terminal one never moves |
| `RemediationRuns.VerifiedCanBeOverwritten` | apps/control-api/app/remediation_service.py:323-379 | from any proposal under verification two overlapping verifications turn verified into failed |
| `RemediationRuns.RankCanFall` | apps/control-api/app/remediation_service.py:323-379 | such a run of the service exists from the start |
| `RemediationRuns.NextKeeps` | apps/control-api/app/remediation_service.py:128-379 | every session of every call and every step of the store keeps the agreement invariant |
| `RemediationCalls.UninterruptedCallIsSerial` | apps/control-api/app/remediation_service.py:188-379 | from every reachable world, an interleaved review, draft, application or verification that nothing interrupts succeeds exactly when the serial call does, and moves its proposal just as that |
| `RemediationRuns.ResolvingSettles` | apps/control-api/app/decision_store.py:884-899 | the guarded update settles the approval and shows that no other call has |
| `Capabilities.ReachableTablesAreConsistent` | apps/control-api/app/decision_store.py:1269-1525 | in every run there is at most one active contract per kind, name and tenant and one row per content, every digest being that of its row |
| `Capabilities.SetStatusKeeps` | apps/control-api/app/decision_store.py:1455-1525 | a status change keeps the invariant; activation retires the rival |
| `Capabilities.SyncServesRegistry` | apps/control-api/app/capability_service.py:47-97 | synchronising with activation makes every entry the active contract of its name, also when content returns to a retired digest, and leaves other names alone |
| `Capabilities.SecondSyncChangesNothing` | apps/control-api/app/capability_service.py:47-97 | synchronising again changes nothing, not even a timestamp |
| `Capabilities.CapabilityStore.Upsert` | apps/control-api/app/decision_store.py:1269-1337 | a row of this content is returned and nothing changes; without one a draft of it is inserted under the new identifier |
| `Capabilities.CapabilityStore.SetContractStatus` | apps/control-api/app/decision_store.py:1455-1525 | the row has the new status, and the time if it was activated; an activation retires the other active rows of its kind, name and tenant, and nothing else changes; or an unknown contract |
| `Capabilities.CapabilityStore.SyncFromFilesystem` | apps/control-api/app/capability_service.py:47-97 | the loop synchronises agents and then tools and returns the record of each entry |
| `Capabilities.PageIsCompleteExactlyWhen` | apps/control-api/app/decision_store.py:1393-1453 | a page holds every matching row exactly when they are no more than the limit |
| `Capabilities.ActiveCapabilityMap` | apps/control-api/app/capability_service.py:116-128 | the map has exactly the names of the page, each with the content of the last row of that name |
| `Capabilities.ActiveMapIsCompleteExactlyWhen` | apps/control-api/app/capability_service.py:100-128 | for one tenant the map serves every active contract if and only if there are at most 500 |
| `Capabilities.AlwaysListedExactlyWhen` | apps/control-api/app/decision_store.py:1434-1443 | a row is on every result of the query exactly when fewer other matching rows than the limit are not older than it |
| `Capabilities.SyncedMapEqualsRegistryExactlyWhen` | apps/control-api/app/capability_service.py:47-128 | after a synchronisation the active maps agree with the registry, by digest, on every name of it, whatever the queries return, if and only if for every entry fewer than 500 other active contracts of its kind and tenant are not older than its own |
| `Capabilities.SyncedNameCanBeMissing` | apps/control-api/app/capability_service.py:100-128 | a concrete table of 501 active agents where a synchronised name can be left out of the map |
| `Capabilities.TenantsAreUnambiguous` | apps/control-api/app/capability_service.py:131-182 | for a single tenant no two active tools share a name and an agent has one active contract at most |
| `Capabilities.ResolveExecutionCapabilityDigests` | apps/control-api/app/capability_service.py:131-182 | where names are unambiguous and no needed tool is crowded out, the agent's pin is the digest of its one active contract, or empty, and the tools' pin the digest of the map of the active digests of just the tools it needs, or empty when there are none |
| `Capabilities.PinsDecide` | apps/control-api/app/capability_service.py:131-182 | the same of the function that the pins theorem uses |
| `Capabilities.PinsDependOnNamedTools` | apps/control-api/app/capability_service.py:131-182 | the pins depend on the active agent contract and the active digests of the tools it names and on nothing else, where names are unambiguous and those tools are not crowded out of the query |
| `RegistryParser.ParseRegistry` | governance/registry/evaluate.py:34-94 | the line loop computes the fold the other lemmas are about; an append to a list that is open cannot fail |
| `RegistryParser.Read` | governance/registry/evaluate.py:44-92 | a line keeps the state well formed: an open list exists and is a list |
| `RegistryParser.NoiseMayGoAnywhere` | governance/registry/evaluate.py:45-46 | files with the same significant lines parse alike, wherever blank lines and comments stand |
| `RegistryParser.ReadItem` | governance/registry/evaluate.py:64-90 | what an item line does at indent 4 and at indent 6 |
| `RegistryParser.IndentsAgreeExactlyWhen` | governance/registry/evaluate.py:64-90 | the two indents mean the same if and only if a list is open or no model is |
| `RegistryParser.IndentsCanDiffer` | governance/registry/evaluate.py:64-90 | a concrete file where the item is dropped at indent 4 and added at indent 6 |
| `RegistryParser.ParseInvertsPrint` | governance/registry/evaluate.py:34-94 | parsing the canonical file of well-formed models gives their registry, with items at indent 4 or 6 |
| `RegistryParser.EveryRegistryParsesBack` | governance/registry/evaluate.py:34-94 | every registry with well-formed names, keys and values has a canonical file that parses back to it |
| `RegistryParser.UnderstoodExactlyWhen` | governance/registry/evaluate.py:44-92 | a line is accepted where it stands if and only if it is one of the forms listed, which the predicate spells out |
| `RegistryParser.ParsesExactlyWhen` | governance/registry/evaluate.py:34-94 | a file parses if and only if every line is understood where those before it leave off |
| `RegistryParser.FileOpensWithModels` | governance/registry/evaluate.py:50-56 | a file that parses and says anything opens with the header |
| `Migrations.Database.ExecuteMigrationStatement` | apps/control-api/app/decision_store.py:410-430 | one statement, where a column that is there already is no error |
| `Migrations.Database.ApplyPendingMigrations` | apps/control-api/app/decision_store.py:378-408 | skips what the ledger has, runs and records the rest, and stops at the first failure |
| `Migrations.ResumeEndsAlike` | apps/control-api/app/decision_store.py:378-408 | a start-up resumed after an interruption anywhere ends as the uninterrupted one |
| `Migrations.CrashesLeaveNoTrace` | apps/control-api/app/decision_store.py:378-443 | any number of crashes and failed start-ups leave no trace: the next start-up ends with the database and outcome of a single one |
| `Migrations.CompletesExactlyWhen` | apps/control-api/app/db_schema.py:165-246 | a start-up completes if and only if decisions have their tenant column or its index, or version 004 is in the ledger |
| `Migrations.FirstReleaseIsStuck` | apps/control-api/app/db_schema.py:165-246 | from the base tables without a tenant and with an empty ledger no start-up completes, however often it is tried |
| `Migrations.LedgerCoversAll` | apps/control-api/app/db_schema.py:463-465 | after a completed start-up the ledger covers every expected version |
| `Migrations.SchemaIsFullExactlyWhen` | apps/control-api/app/db_schema.py:209-461 | a completed start-up leaves the full schema if and only if every version in the ledger it found had really added its columns and tables |
| `Migrations.OverclaimedStaysBare` | apps/control-api/app/db_schema.py:209-461 | a concrete ledger that claims every version, under which a start-up completes and the tenant column stays missing |
| `Migrations.SecondStartupIsIdle` | apps/control-api/app/decision_store.py:378-408 | a further start-up has nothing to do and changes nothing |
| `Migrations.TenantsAreFilled` | apps/control-api/app/db_schema.py:239-245 | unless version 006 was in the ledger before, every blank tenant has become the team |
| `Migrations.ProviderIsOwner` | apps/control-api/app/db_schema.py:209-461 | no two versions add the same column or table |
| `MetricLabels.ReplacingIsEscaping` | apps/control-api/app/metrics_util.py:32-38 | the three successive replacements equal a single-pass escape |
| `MetricLabels.ValueReadsBack` | apps/control-api/app/metrics_util.py:32-38 | a reader of the format gets the value back and stops exactly at its closing quote |
| `MetricLabels.ValuesStayDistinct` | apps/control-api/app/metrics_util.py:32-38 | values render alike if and only if they are equal |
| `MetricLabels.NoNewline` | apps/control-api/app/metrics_util.py:32-38 | a rendered value has no raw newline |
| `MetricLabels.LineReadsBack` | apps/control-api/app/metrics_util.py:41-50 | a line reads back to its name, value and labels in order, whatever the label values |
| `MetricLabels.LinesStayDistinct` | apps/control-api/app/metrics_util.py:41-50 | no two samples share a line |
| `MetricLabels.PairsHaveNoNewline` | apps/control-api/app/metrics_util.py:41-46 | rendered labels stay on one line |

## Left out

- One clock reading per session: a call that reads the clock twice in one session is modelled with
  one reading, and the clock does not go back between sessions.
- Identifiers drawn at random never repeat; a step that would repeat one changes nothing.
- SHA-256 and JSON encoding: digests are a function parameter of the payload, of which nothing is
  assumed; audit payloads are reduced to the approval id and digest.
- PostgreSQL, the connection pool, advisory locks and metrics around database calls: the SQLite path
  is modelled, where every session and transaction is serialised by one lock.
- HTTP routers, identity, roles and error envelopes.
- The policy bundle reload endpoint, and `activate_policy_bundle` without a content digest.
- Two overlapping `evaluate_policy` calls on one proposal: an evaluation is one step.
- Loading a policy source yields the recorded digest or fails; signature and registry clients are not
  modelled.
- The agent and residency engines are parameters of the pipeline; the prompt patterns are one boolean
  per class; reasons are an enumeration instead of text.
- Floating-point rounding: costs, thresholds and multipliers are reals.
- Unicode: lower-casing and trimming are those of ASCII, and model names keep ASCII letters and digits.
- The parsers of policies, rules and packs other than the registry parser; in the registry parser the
  conversion of a scalar's text to a boolean or number, the splitting of the file into lines, and the
  order of keys in the dictionary.
- Redis failures, keys of different teams that collide as strings, and the finance keys; in the quota
  service a midnight between two clock readings of one call, and the form in which Lua prints numbers:
  a day's tokens of 10^14 or more would be stored with an exponent, which the reader refuses.
- GitHub pull requests, probes and live sources of drift: their results are parameters; titles, bodies
  and failure texts of proposals are not modelled.
- Rows that violate a unique index which a migration creates, and tables created by hand without the
  columns of their version: `Migrations.CompletesExactlyWhen` starts from tables that have the columns
  they were introduced with.
- In the remediation service the request an evaluation builds is a parameter, an action kind is one of
  the known kinds, and a stored drift snapshot is well formed.
- The fallback key `allowed_tools` of an agent's capabilities, and tool entries that are not strings.
- The schema script that runs before the migrations.
- The latency histogram, the in-memory audit list, topology, fleet, finance, intent, placement,
  forecasting and autoscaling.
- PersistEvaluation: an expiry beyond the last representable time is an error result, where the
  service raises.
- PinsDependOnNamedTools: asks that names are unambiguous, because without a tenant contracts of several
  tenants may share a name, and which of them decides then depends on when they were updated.
- PurgeTerminates: SQLite's bound on the number of variables of a statement is not modelled; a stock
  build refuses a purge of more than 32766 decisions at once, so with a larger limit and as many old
  rows the service raises instead of making progress.
- SyncFromFilesystem: reads both registries before it starts, where the service reads the second one
  after writing the first.
