# A verified model of the OpenBao entity operator

The operator keeps OpenBao identity and system configuration in step with Kubernetes objects. Its
guarantees only show over whole runs: passes read caches that may be stale, any call may fail or be
the last one before a crash, people edit OpenBao by hand, and specs change in between. This project
models the six components that keep state across passes and proves what holds in every such run.

Each component has the same shape. A pass is a function from the server, the stored object versions
and a record of what each call does (`Fault`: fine, an error before or after the effect, a crash
before or after the effect) to the new server and store. The imperative code of the operator is a
class or a method with loops that is proved to compute that function. Runs are sequences of passes
mixed with outside actions, and the theorems quantify over all of them. A read of the server returns
what was last written; the read and write of one pass are not interleaved with outside writers.
Two laws of OpenBao are named where a theorem uses them: a group name belongs to at most one group,
and an ID is given out once.

| module | component |
|---|---|
| `Kube`, `StringLists`, `Conditions`, `JsonFields` | policies and faults, list normalisers, status conditions, field comparison |
| `Group`, `GroupEffects` | one pass over a group, and what it achieves in terms of spec, memberships and server |
| `GroupRuns`, `GroupRecovery`, `GroupReadiness` | membership ownership over runs, recovery from stops, order of readiness |
| `TokenLease`, `TokenClient`, `TokenConcurrency` | lease arithmetic, one caller, all interleavings of many callers |
| `ClientCache` | the cache of clients with dynamic login |
| `Entity`, `EntityEffects`, `EntityRuns`, `EntityAlias` | the ID-keyed lifecycle with finalizer and deletion: one pass, what it achieves, and runs |
| `NamedLifecycle` | the generic name-keyed lifecycle, for every adapter |
| `RoleValues`, `AppRoleRole`, `TokenRole`, `KubernetesAuthRole` | requests, omitted fields, matchers and drift |
| `MfaMethod` | secrets that cannot be read back |

Where the code does less than its documentation or its neighbours suggest, the model follows the
code. For each case one lemma gives an input or a run that shows it, and one says exactly when it
happens:

- `README.md:117` of the repository says that deleting a membership claim removes its relationship.
  If a pass stops between the group update and the status write and the claim is withdrawn before
  the next pass, the member stays. Shown by `GroupRecovery.CrashThenWithdrawStrandsMember`, exactly
  by `GroupRecovery.LeftBehindExactly`, and for every run by `GroupRecovery.MembersExactly`.
- If the first pass of a group, or the pass that replaces a vanished one, stops after the group is
  written and before its ID is stored, and the policy is the default Create, no later pass completes
  and the members stay, unmanaged. Shown by `GroupRecovery.FirstPassCrashSticks` and
  `GroupRecovery.GroupStuckForEver`, exactly by `GroupRecovery.CrashRecovery`.
- An entity that was created but could not be read back is forgotten when the same failure was
  already reported, because the failure path compares the status with a copy that already carries
  the new ID. Exactly by `EntityRuns.CreatedIDRecordedIff`; under policy Create the resource is then
  stuck: `EntityRuns.ForgottenSticks`, `EntityRuns.StuckForEver`.
- A token role list emptied in the spec is never sent, never cleared, and rewritten in every pass.
  Shown by `TokenRole.EmptiedListStays`, exactly by `TokenRole.WriteThenMatchIff` and
  `TokenRole.WritesOverTime`. The same happens to a Kubernetes auth role whose server still reports
  the older `policies` list: `KubernetesAuthRole.WriteThenMatchIff` and
  `KubernetesAuthRole.WritesOverTime`.
- A request can go out with an empty token. Shown by `TokenConcurrency.RequestWithoutTokenIsPossible`,
  exactly by `TokenConcurrency.EmptyTokenExactly`; never while OpenBao rejects nothing:
  `TokenConcurrency.NoRejectionNoEmptyToken`.
- An MFA secret that was rotated and put back can stay rotated on the server, after a stop between
  the two writes or when a pass reads the version from before the rotation. Shown by
  `MfaMethod.RevertAfterGapIsMissed` and `MfaMethod.RevertOnOldVersionIsMissed`, exactly by
  `MfaMethod.SecretCurrentIff` and, where no pass stops between the writes,
  `MfaMethod.SecretConverges`.
- A lease longer than 9223372036 seconds overflows. Shown by `TokenLease.OverflowExample`; which
  leases are unusable at once, exactly by `TokenLease.FreshLeaseNeedsRefreshIff`.
- Two AppRole references with `#` in a Secret name could share a cached client; Kubernetes names
  exclude it. Shown by `ClientCache.HashInNameConfuses`, exactly by `ClientCache.AmbiguousIff`.
- A CleanupRequired condition, once raised, is never lowered: `Conditions.ApplyThenFind` for one
  mark, exactly over every sequence `Conditions.EveryRunOfMarks`.

## Model

| member | source | states |
|---|---|---|
| `Group.SubtractIDs` | internal/controller/openbao/openbaogroup_controller.go:532-540 | The loop leaves exactly the source IDs that are not among the values to take away. |
| `Group.ManagedMemberIDs` | internal/controller/openbao/openbaogroup_controller.go:506-516 | The loop splits the claims into entity IDs and group IDs, in order and with repetitions. |
| `Group.MembershipsForGroup` | internal/controller/openbao/openbaogroup_controller.go:272-288 | Exactly the memberships that name the group, in name order. |
| `Group.ResolveMemberships` | internal/controller/openbao/openbaogroup_controller.go:290-360 | Stops at the first membership that cannot be resolved; on success the claims are exactly what the group's memberships claim. |
| `Group.ResolveIsExact` | internal/controller/openbao/openbaogroup_controller.go:290-360 | Resolution succeeds if and only if every membership of the group resolves (and none exists for an external group), and then an ID is claimed if and only if some membership claims it. |
| `Group.DesiredGroupRequest` | internal/controller/openbao/openbaogroup_controller.go:461-483 | Builds the desired group: observed members minus managed ones plus claims, each list normalised. |
| `Group.DesiredMembers` | internal/controller/openbao/openbaogroup_controller.go:461-483 | As a set, the desired members are the observed ones minus those managed plus those claimed. |
| `Group.MatchingMembers` | internal/controller/openbao/openbaogroup_controller.go:485-491 | A group that matches has exactly the desired member sets. |
| `Group.GroupCluster.AcquireGroup` | internal/controller/openbao/openbaogroup_controller.go:190-230 | Binds by recorded ID, else by name, else creates; a vanished ID is cleared and tried by name once, so it terminates. |
| `Group.GroupCluster.Reconcile` | internal/controller/openbao/openbaogroup_controller.go:89-171 | The controller changes OpenBao and the stored object exactly as the pass function says, at every stopping point. |
| `Group.GroupCluster.ConvergeBound` | internal/controller/openbao/openbaogroup_controller.go:127-171 | The same for the part after `acquire`: identity check, claims, update, read-back, status write. |
| `Group.PassHasFacts` | internal/controller/openbao/openbaogroup_controller.go:89-171 | One pass adds at most one group, new and memberless, writes at most the bound group, stores at most one version, and records the claims only on the newest version. |
| `GroupEffects.ResolvesExactly` | internal/controller/openbao/openbaogroup_controller.go:290-360 | A membership claims an ID if and only if exactly one target is set, it is not the group itself, and that object is Ready with this ID. |
| `GroupEffects.UnresolvedExactly` | internal/controller/openbao/openbaogroup_controller.go:290-360 | A membership that does not resolve is wrong as it stands exactly if none or both targets are set or it names the group itself; otherwise it waits for a dependency. |
| `GroupEffects.FirstUnresolvedDecides` | internal/controller/openbao/openbaogroup_controller.go:290-360 | The failure reported is that of the first membership, in name order, that does not resolve. |
| `GroupEffects.AcquiresExactly` | internal/controller/openbao/openbaogroup_controller.go:190-230 | A group is bound exactly if the calls needed succeed and a known ID, or the policy for a taken or a free name, allows it; it is the right one, and a group is created only for a free name under a policy that may create. |
| `GroupEffects.WrittenAsSpecified` | internal/controller/openbao/openbaogroup_controller.go:147-155 | Every pass that brings a group to what it wants leaves it on the server with the name, type, metadata and policies of the spec. |
| `GroupEffects.UpdatesExactly` | internal/controller/openbao/openbaogroup_controller.go:147-155 | An update is sent if and only if name, type, metadata, policies or members differ from what spec and memberships ask for. |
| `GroupEffects.CompletesExactly` | internal/controller/openbao/openbaogroup_controller.go:89-171 | With its calls succeeding, a pass completes if and only if the policy allows it, the group was not renamed and every membership resolves; otherwise no existing group changes. |
| `GroupEffects.ReadyIsTrue` | internal/controller/openbao/openbaogroup_controller.go:157-165 | A version stored by any pass says Ready exactly if the claims were recorded, and then it carries the ID of a group as the spec says that holds every claimed member. |
| `GroupEffects.UnresolvedIsReported` | internal/controller/openbao/openbaogroup_controller.go:138-146 | A membership that does not resolve leaves OpenBao alone and is reported with reason, message and generation, as Stalled if it waits. |
| `GroupEffects.FailureReported` | internal/controller/openbao/openbaogroup_controller.go:252-270 | A missing dependency is reported as Stalled, and a failed acquisition, a rename and failing membership reads each with their reason, message and generation; no update is sent. |
| `GroupEffects.UpdateFailureReported` | internal/controller/openbao/openbaogroup_controller.go:148-156 | So are a failed update and a failed read-back. |
| `GroupRuns.NoPassRemovesUnclaimed` | internal/controller/openbao/openbaogroup_controller.go:123-163 | In every run with claim changes, outside edits, lost groups, stale reads and stops anywhere, a pass removes only members that some membership once claimed for this group. |
| `GroupRuns.PassEffectOnRemote` | internal/controller/openbao/openbaogroup_controller.go:147-155 | A pass changes no existing group except the bound one, whose members become previous minus managed plus claims. |
| `GroupRuns.PassEffectOnManaged` | internal/controller/openbao/openbaogroup_controller.go:493-504 | The newest version's managed IDs are the claims of the recording pass, and otherwise what they were. |
| `GroupRuns.PassMembers` | internal/controller/openbao/openbaogroup_controller.go:461-504 | After any pass, whatever versions it read and wherever it stopped: if it brought this group to its desired members, an ID is in exactly if claimed, or found and not read as managed; otherwise exactly if it was in. |
| `GroupRuns.WrittenMembers` | internal/controller/openbao/openbaogroup_controller.go:461-504 | For a pass on the newest versions the same, and if it recorded, managed is exactly claimed. |
| `GroupRuns.WithdrawalTakesEffect` | internal/controller/openbao/openbaogroup_controller.go:461-483 | Across anything between two recording passes, the second leaves exactly the current claims plus found members the first had not claimed: one of several claims is enough to stay, the last withdrawal removes. |
| `GroupRecovery.MembersExactly` | internal/controller/openbao/openbaogroup_controller.go:123-163 | In every run, with stale reads, stops, outside edits and losses, an ID is in a group exactly if a claim or an outside write put it there, or it was there at the start, and nothing later took it out. |
| `GroupRecovery.LeftBehindExactly` | internal/controller/openbao/openbaogroup_controller.go:147-165 | After any number of passes that did not record, over versions stored since the last record and for groups bound, adopted or created, the next pass that writes leaves an unclaimed member exactly if it was not managed and was there before or was put there by an interrupted pass. |
| `GroupRecovery.CrashThenWithdrawStrandsMember` | internal/controller/openbao/openbaogroup_controller.go:147-165 | A crash between the two writes followed by a withdrawal leaves the member in place, unmanaged. |
| `GroupRecovery.CrashRecovery` | internal/controller/openbao/openbaogroup_controller.go:147-165 | From every start, after a pass that stops between the two writes and any number of failing or stopping passes: no further update is sent, the server stays as it was, and a pass whose calls succeed completes if and only if the stored ID exists or the policy allows adoption; what it records is exactly the claims. |
| `GroupRecovery.StoppedAsClean` | internal/controller/openbao/openbaogroup_controller.go:147-165 | The stopped pass leaves its group with the members a clean pass would have left. |
| `GroupRecovery.FirstPassCrashSticks` | internal/controller/openbao/openbaogroup_controller.go:190-230 | The first pass of a group under policy Create that crashes before its status write leaves the members in OpenBao, unmanaged, and the resource stuck. |
| `GroupRecovery.GroupStuckForEver` | internal/controller/openbao/openbaogroup_controller.go:190-230 | With the name taken, no stored version holding an existing ID and none allowing adoption, no pass of any later run completes or changes OpenBao. |
| `GroupRecovery.DesiredIsStable` | internal/controller/openbao/openbaogroup_controller.go:461-491 | Recomputing the desired group from itself gives the same group, and it matches. |
| `GroupRecovery.HoldingPass` | internal/controller/openbao/openbaogroup_controller.go:147-163 | Over a server that holds what is asked for, a pass sends no update, works on that group, and completes, its calls succeeding, if and only if it can find the group again. |
| `GroupRecovery.UndisturbedPassWrites` | internal/controller/openbao/openbaogroup_controller.go:127-171 | A pass whose calls succeed up to the status write brings its group to the desired members; only the status write decides whether it records. |
| `GroupReadiness.PassReady` | internal/controller/openbao/openbaogroup_controller.go:138-162 | A version stored by a pass says Ready only if every membership of the group was resolved. |
| `GroupReadiness.SubgroupsReadyFirst` | internal/controller/openbao/openbaogroup_controller.go:290-360 | In every run starting with no group Ready, a group becomes Ready only strictly after each claimed subgroup, however stale the child statuses read. |
| `GroupReadiness.CyclesNeverReady` | internal/controller/openbao/openbaogroup_controller.go:290-360 | No group on a membership cycle of any length ever becomes Ready. |
| `StringLists.NormalizeCanonical` | internal/controller/openbao/openbaogroup_controller.go:542-546 | Sorting and compacting yields each value once, ascending. |
| `StringLists.NormalizeDecides` | internal/controller/openbao/openbaogroup_controller.go:485-491 | Two lists normalise equal if and only if they hold the same values. |
| `StringLists.NormalizeRoleValues` | internal/controller/openbao/openbaokubernetesauthrole_controller.go:366-373 | The in-place trim, sort and compact yields exactly the trimmed values, each once, ascending. |
| `StringLists.CheckedRoleValues` | internal/controller/openbao/openbaokubernetesauthrole_controller.go:358-364 | Accepts if and only if no value trims to nothing, and then returns the normalised list. |
| `StringLists.NormalizeTrimmedIdempotent` | internal/controller/openbao/openbaoapprole_controller.go:329-336 | A normalised list is its own normal form. |
| `StringLists.TrimSpaceCuts` | internal/controller/openbao/openbaokubernetesauthrole_controller.go:366-373 | Trimming takes away spaces at both ends and nothing else, and leaves nothing exactly of blank values. |
| `StringLists.NormalizeTrimmedDecides` | internal/controller/openbao/openbaokubernetesauthrole_controller.go:366-373 | Two lists normalise equal if and only if they hold the same values once trimmed. |
| `TokenLease.FreshLeaseNeedsRefreshIff` | internal/openbaoclient/client.go:469-479 | A lease just issued asks for refresh if and only if its duration overflowed int64 nanoseconds to a value that is not positive. |
| `TokenLease.InRangeDoesNotOverflow` | internal/openbaoclient/system.go:108-115 | Up to 9223372036 seconds the nanosecond duration is exact. |
| `TokenLease.OverflowExample` | internal/openbaoclient/system.go:108-115 | One second more and the fresh lease is already expired. |
| `TokenLease.RenewableRefreshWindow` | internal/openbaoclient/client.go:469-479 | A renewable lease asks for refresh exactly from a threshold on that is no earlier than two thirds of its life, at most 60 s before expiry and strictly before it. |
| `TokenLease.FixedLeaseExpires` | internal/openbaoclient/client.go:469-479 | A lease that cannot be renewed asks exactly from its expiry on. |
| `TokenLease.NoExpiryNeverRefreshes` | internal/openbaoclient/client.go:469-479 | A token granted without a duration never asks for refresh. |
| `TokenClient.FailedEnsureKeepsSession` | internal/openbaoclient/client.go:409-463 | A failed `ensureToken` leaves token and lease as they were. |
| `TokenClient.EnsureCalls` | internal/openbaoclient/client.go:409-463 | A static token, or one whose lease needs no refresh, is reused without a call; a renewal is tried exactly for a held, due, renewable token; a login exactly when none is held or the due one is not renewable or was refused, and the credentials can be read. |
| `TokenClient.EnsureOutcome` | internal/openbaoclient/client.go:409-463 | When it succeeds, and which token and lease it leaves after reuse, renewal, login or failure. |
| `TokenClient.CallOutcome` | internal/openbaoclient/client.go:324-339 | A call fails without a token, carries the ensured one, is tried again exactly after 401 or 403 on dynamic auth and a granted login, succeeds exactly with its last attempt, and keeps no rejected token. |
| `TokenClient.EnsureLeavesUsableLease` | internal/openbaoclient/client.go:409-463 | A successful one leaves a token whose lease needs no refresh at the last clock reading, except exactly when the granted lease overflowed. |
| `TokenClient.SingleCallerBounds` | internal/openbaoclient/client.go:324-339 | At most two attempts, two logins, one renewal; a second attempt only after 401 or 403 on dynamic login, with the token of a login made after that rejection. |
| `TokenClient.Client.EnsureToken` | internal/openbaoclient/client.go:409-463 | Token, lease and calls sent are those of the session function. |
| `TokenClient.Client.InvalidateToken` | internal/openbaoclient/client.go:402-407 | Clears the token and its lease. |
| `TokenClient.Client.DoSegmentsQuery` | internal/openbaoclient/client.go:324-339 | Token, lease and calls sent are those of the call function. |
| `TokenConcurrency.LeaseBelongsToToken` | internal/openbaoclient/client.go:396-463 | Under every interleaving of any number of callers: when the mutex is free the lease was issued for exactly the stored token, an empty token has the zero lease; never two callers inside; every token sent was issued or is empty. |
| `TokenConcurrency.EmptyTokenExactly` | internal/openbaoclient/client.go:324-339 | The token read after `ensureToken` is empty if and only if some caller invalidated it since the mutex was released and no login has stored one since the last invalidation. |
| `TokenConcurrency.NoRejectionNoEmptyToken` | internal/openbaoclient/client.go:324-339 | In a run without a 401 or 403, no request carries an empty token. |
| `TokenConcurrency.RequestWithoutTokenIsPossible` | internal/openbaoclient/client.go:324-339 | Two callers reach a state in which a request carries an empty token. |
| `TokenConcurrency.EveryCallIsBounded` | internal/openbaoclient/client.go:324-339 | Under every interleaving a call makes at most two attempts, two logins and two renewals. |
| `TokenConcurrency.SoloIsEnsure` | internal/openbaoclient/client.go:409-463 | The interleaved steps of one caller left alone are exactly the single-caller `ensureToken`. |
| `TokenConcurrency.SoloSends` | internal/openbaoclient/client.go:324-339 | The request carries the token found in the client, and only a first 401 or 403 leads on to invalidation. |
| `TokenConcurrency.SoloInvalidates` | internal/openbaoclient/client.go:402-407 | Invalidation empties token and lease under the mutex and starts the second round. |
| `ClientCache.ConnectionClientCache.LookUp` | internal/controller/openbao/common.go:264-326 | The cache and the reply change exactly as the lookup function says, including failed constructions. |
| `ClientCache.AgreesWithFreshBuild` | internal/controller/openbao/common.go:173-213 | After every history of calls with any changes of specs, Secrets and bundles, a call fails exactly when a fresh build would, and otherwise returns a client with the fresh build's configuration. |
| `ClientCache.BuiltAsSpecified` | internal/controller/openbao/common.go:173-260 | A fresh build yields a configuration if and only if it is acceptable and its address, namespace, timeout, bundle, login, mount path and credential sources are those the spec and Secrets name, with the defaults. |
| `ClientCache.ReplyAsSpecified` | internal/controller/openbao/common.go:264-326 | After every history of calls, the client returned has exactly such a configuration, and none is returned only if there is no acceptable one. |
| `ClientCache.SameKeySameClient` | internal/controller/openbao/common.go:264-326 | Two calls with the same key get the same client object if no call in between built this connection's client under another key. |
| `ClientCache.KeyDecidesConfig` | internal/controller/openbao/common.go:56-67 | Equal keys mean the same connection and the same configuration, with the digest injective. |
| `ClientCache.JoinInjective` | internal/controller/openbao/common.go:298-299 | For names without `#` and any keys, `name#key` decides name and key. |
| `ClientCache.AmbiguousIff` | internal/controller/openbao/common.go:298-299 | A reference shares its encoding with another if and only if its name or key contains `#`. |
| `ClientCache.HashInNameConfuses` | internal/controller/openbao/common.go:294-325 | With `#` in a name, a cached client of another configuration is returned. |
| `Conditions.ConditionList.Set` | internal/controller/openbao/common.go:88-102 | The scan replaces the first condition of that type unless it already says the same, and appends otherwise. |
| `Conditions.ConditionList.MarkReady` | internal/controller/openbao/common.go:104-121 | Ready becomes True and Stalled False. |
| `Conditions.ConditionList.MarkError` | internal/controller/openbao/common.go:123-136 | Ready becomes False with the reason and message. |
| `Conditions.ConditionList.MarkStalled` | internal/controller/openbao/common.go:138-152 | An error mark and Stalled True. |
| `Conditions.ConditionList.MarkCleanupFailure` | internal/controller/openbao/common.go:154-164 | A stall mark and CleanupRequired True. |
| `Conditions.ApplyThenFind` | internal/controller/openbao/common.go:104-164 | After a mark, exactly which of Ready, Stalled and CleanupRequired are True. |
| `Conditions.MarkReports` | internal/controller/openbao/common.go:104-164 | After each mark, the status, reason, message and generation of every condition it sets. |
| `Conditions.EveryRunOfMarks` | internal/controller/openbao/common.go:88-164 | Over every sequence of marks: types stay unique, foreign conditions and order are untouched, Ready and Stalled are never both True, CleanupRequired is True exactly if it was or some mark recorded a cleanup failure. |
| `Conditions.RepeatedMarkIsSilent` | internal/controller/openbao/common.go:88-164 | Repeating a mark at another time leaves the list identical, transition times included. |
| `Entity.EntityCluster.AcquireEntity` | internal/controller/openbao/openbaoentity_controller.go:138-178 | The ID-keyed acquisition, with every call logged; it recurses at most once. |
| `Entity.EntityCluster.ReconcileDeletion` | internal/controller/openbao/openbaoentity_controller.go:180-198 | Deletes only a recorded ID under policy Delete; success or not-found releases the finalizer, a failure is recorded. |
| `Entity.EntityCluster.Reconcile` | internal/controller/openbao/openbaoentity_controller.go:59-126 | OpenBao, the stored versions and the log change exactly as the pass function says. |
| `Entity.EntityCluster.CorrectDrift` | internal/controller/openbao/openbaoentity_controller.go:98-126 | The same for drift correction of a bound entity. |
| `Entity.AcquireHasFacts` | internal/controller/openbao/openbaoentity_controller.go:138-178 | What may be logged and which ID may be left: the recorded one, one just created, or one adopted under a policy that allows it. |
| `EntityEffects.AcquiresExactly` | internal/controller/openbao/openbaoentity_controller.go:138-178 | An entity is bound exactly if the calls needed succeed and a known ID, or the policy for a taken or a free name, allows it; a create goes out only for a free name under a policy that may create, an adoption only under one that may adopt. |
| `EntityEffects.MatchesExactly` | internal/controller/openbao/common.go:388-402 | An entity matches exactly when name, disabled flag, metadata and the multiset of policies are those of the spec. |
| `EntityEffects.CorrectsExactly` | internal/controller/openbao/openbaoentity_controller.go:100-126 | An update of exactly the bound entity is sent if and only if it differs from the spec, and a completed correction leaves it as the spec says. |
| `EntityEffects.CompletedAsSpecified` | internal/controller/openbao/openbaoentity_controller.go:59-126 | Any completed pass leaves the entity whose ID is stored on the server as the spec says, unless renamed meanwhile. |
| `EntityEffects.CompletesExactly` | internal/controller/openbao/openbaoentity_controller.go:59-126 | With its calls succeeding, a pass completes if and only if the policy allows it; then the newest version reports Ready with the ID of an entity as the spec says. |
| `EntityEffects.StepCompletesExactly` | internal/controller/openbao/openbaoentity_controller.go:59-126 | The same for the whole of `Reconcile`, with the finalizer there or still to be set. |
| `EntityEffects.ReadyIsTrue` | internal/controller/openbao/openbaoentity_controller.go:114-123 | A version stored with Ready carries the ID of an entity that is on the server as the spec says. |
| `EntityEffects.DeletesExactly` | internal/controller/openbao/openbaoentity_controller.go:180-198 | A delete is sent exactly under policy Delete with a recorded ID and a reachable server, of that ID; otherwise OpenBao is left alone and the object let go. |
| `EntityEffects.FailureReported` | internal/controller/openbao/openbaoentity_controller.go:200-218 | A missing dependency is reported as Stalled, and a failed acquisition, update and read-back each with their reason, message and generation. |
| `EntityEffects.FailedCleanupReported` | internal/controller/openbao/common.go:374-380 | A failed cleanup is reported as CleanupRequired with its cause on a version that keeps ID and finalizer. |
| `EntityRuns.OnlyOwnedTouched` | internal/controller/openbao/openbaoentity_controller.go:59-198 | In every run each update and delete targets an ID created by this resource or adopted under a policy allowing it, and each create directly follows a by-name read that found nothing. |
| `EntityRuns.FinalizerBeforeExternalWork` | internal/controller/openbao/openbaoentity_controller.go:69-78 | Under policy Delete a version with the finalizer is stored before any create, adoption or update. |
| `EntityRuns.RemovalLeavesNothing` | internal/controller/openbao/openbaoentity_controller.go:180-198 | The object disappears only without a recorded ID or in a pass that just deleted that entity or found it gone. |
| `EntityRuns.NoRecordedEntityOutlivesItsObject` | internal/controller/openbao/common.go:352-366 | The same over every run in which the policy stays Delete. |
| `EntityRuns.CleanupRetries` | internal/controller/openbao/openbaoentity_controller.go:180-198 | After deletion passes that stopped anywhere, only the recorded entity was touched, and the first pass that gets through removes the object with the entity gone. |
| `EntityRuns.CreatedIDRecordedIff` | internal/controller/openbao/openbaoentity_controller.go:163-218 | For every pass that creates an entity, from any recorded state, the new ID is stored if and only if the create answered with it, the pass lived to its status write, that write landed, and the read-back worked or its failure was not already reported; otherwise no version stores it. |
| `EntityRuns.ForgottenSticks` | internal/controller/openbao/openbaoentity_controller.go:151-155 | A pass under policy Create that creates an entity without storing its ID leaves the resource stuck. |
| `EntityRuns.StuckForEver` | internal/controller/openbao/openbaoentity_controller.go:151-155 | With the name taken, no stored version holding an existing ID and none allowing adoption, nothing is sent and no pass completes in any later run. |
| `EntityAlias.FindExistingAlias` | internal/controller/openbao/openbaoentityalias_controller.go:200-230 | Finds nothing if and only if nothing matches, one alias if and only if it is the only match; two matches or a failed read are never taken for either. |
| `EntityAlias.MatchesExactly` | internal/controller/openbao/openbaoentityalias_controller.go:320-326 | An alias matches exactly if it has the name, the accessor, and the entity under its newer or, where that is empty, its older field. |
| `EntityAlias.WritesOverTime` | internal/controller/openbao/openbaoentityalias_controller.go:104-131 | On an alias that passes the identity check, n passes write never, once, or every time, the last exactly when OpenBao reports an empty name or accessor. |
| `JsonFields.DesiredFieldsMatch` | internal/controller/openbao/openbaosystem_controller.go:211-224 | The loop answers, in any order of the fields, whether every desired field outside the skipped ones is present with the same encoding. |
| `NamedLifecycle.NamedResource.Reconcile` | internal/controller/openbao/openbaosystem_controller.go:137-184 | Server, status and log change exactly as the pass function says, for every adapter. |
| `NamedLifecycle.EveryWriteJustified` | internal/controller/openbao/openbaosystem_controller.go:137-184 | For every adapter and run, over any served versions, each write directly follows a read that found nothing or something it may adopt, or relies on an earlier recorded acquisition; and every write or record goes back to such a read. |
| `NamedLifecycle.CompletedPassSettles` | internal/controller/openbao/openbaosystem_controller.go:151-184 | If a write makes the read agree and completion records the acquisition, a completed pass leaves the server agreeing with the version it read, whose acquisition is recorded; over the newest version the resource is settled. |
| `NamedLifecycle.NothingWrittenOnceSettled` | internal/controller/openbao/openbaosystem_controller.go:151-184 | From then on no pass over the settled versions writes, whatever fails and whatever the policy becomes, until the desired fields or the server change. |
| `NamedLifecycle.WritesExactly` | internal/controller/openbao/openbaosystem_controller.go:145-170 | With its calls succeeding, a pass writes the desired fields, saying whether it creates, if and only if it may proceed and the object is missing or lacks one of them. |
| `NamedLifecycle.CompletesExactly` | internal/controller/openbao/openbaosystem_controller.go:137-184 | With its calls succeeding, a pass completes if and only if a missing object may be created, or an existing one was acquired or may be adopted; then the server has the desired fields and the newest version says Ready with the acquisition observed. |
| `NamedLifecycle.ReadyIsTrue` | internal/controller/openbao/openbaosystem_controller.go:167-184 | A version stored by any pass says Ready exactly if its completion was recorded, and then the server has the fields it asks for. |
| `NamedLifecycle.FailureReported` | internal/controller/openbao/openbaosystem_controller.go:196-209 | A missing dependency is reported as Stalled, and each failing step with its reason, message and generation. |
| `NamedLifecycle.NeverAcquiredNeverCompletes` | internal/controller/openbao/openbaoadditional_controller.go:429-438 | With an `Acquired` that is never true, policy Create and an existing object, no pass completes or writes. |
| `RoleValues.DurationSeconds` | internal/controller/openbao/openbaokubernetesauthrole_controller.go:375-386 | Accepts exactly absent durations and non-negative whole seconds, and the result times a second is the duration. |
| `RoleValues.OptionalDurationSeconds` | internal/controller/openbao/openbaotokenrole_controller.go:320-329 | The same, keeping an absent duration absent and sending a zero one. |
| `RoleValues.WritesOverPasses` | internal/controller/openbao/openbaotokenrole_controller.go:104-117 | For a server on which writing twice is writing once, n passes write never, once, or in every pass, according to whether the role matches, matches once written, or neither. |
| `RoleValues.WritesFromAbsent` | internal/controller/openbao/openbaotokenrole_controller.go:140-163 | Starting from an absent role there is one write, or one more than there are passes. |
| `AppRoleRole.DesiredRequest` | internal/controller/openbao/openbaoapprole_controller.go:230-269 | Succeeds exactly on specs without blank values and with whole-second durations, and then every field of the request comes from its field of the spec: trimmed lists, seconds for durations, trimmed texts. |
| `AppRoleRole.WriteThenMatch` | internal/controller/openbao/openbaoapprole_controller.go:271-306 | For every spec and prior role, the role read back after a write matches. |
| `AppRoleRole.MatchesExactly` | internal/controller/openbao/openbaoapprole_controller.go:271-306 | A role matches exactly when it has, field by field, everything that the spec sets. |
| `AppRoleRole.MatchesIffWriteChangesNothing` | internal/controller/openbao/openbaoapprole_controller.go:271-306 | The matcher reports drift exactly when a write would change what is observed of the role. |
| `AppRoleRole.DriftSettles` | internal/controller/openbao/openbaoapprole_controller.go:271-306 | Over any number of passes, from any role or none, there is at most one write, and the role then matches and stays. |
| `TokenRole.DesiredRequest` | internal/controller/openbao/openbaotokenrole_controller.go:228-270 | Succeeds exactly on specs without blank values and with whole-second durations, and then every field of the request comes from its field of the spec: trimmed lists, seconds for durations, trimmed texts. |
| `TokenRole.WriteThenMatchIff` | internal/controller/openbao/openbaotokenrole_controller.go:272-309 | The role read back matches if and only if every list empty in the spec is empty on the server; a role matches as it stands exactly when that holds and a write would change nothing observed. |
| `TokenRole.MatchesExactly` | internal/controller/openbao/openbaotokenrole_controller.go:272-309 | A role matches exactly when every list has the same values and it has every other field the spec sets. |
| `TokenRole.WritesOverTime` | internal/openbaoclient/token_roles.go:43-58 | Over n passes there are no writes, one, or n, the last exactly when the role differs and the server holds a list the spec leaves empty. |
| `TokenRole.EmptiedListStays` | internal/openbaoclient/token_roles.go:43-58 | Emptying a list in the spec leaves the old list on the server, unmatched. |
| `KubernetesAuthRole.DesiredRequest` | internal/controller/openbao/openbaokubernetesauthrole_controller.go:249-296 | Succeeds exactly on specs without blank names, namespaces or policies and with whole-second durations, and then every field of the request comes from its field of the spec: trimmed lists, seconds for durations, trimmed texts. |
| `KubernetesAuthRole.WriteThenMatchIff` | internal/controller/openbao/openbaokubernetesauthrole_controller.go:298-340 | The role read back matches if and only if the spec names a policy or the older `policies` list is empty. |
| `KubernetesAuthRole.MatchesExactly` | internal/controller/openbao/openbaokubernetesauthrole_controller.go:298-340 | A role matches exactly when its lists and lifetimes are those of the spec and it has every other field the spec sets. |
| `KubernetesAuthRole.MatchesIffWriteChangesNothing` | internal/controller/openbao/openbaokubernetesauthrole_controller.go:316-340 | A role matches exactly when the older list is harmless and a write would change nothing observed. |
| `KubernetesAuthRole.WritesOverTime` | internal/openbaoclient/kubernetes_auth_roles.go:44-66 | Over n passes there are no writes, one, or n, the last exactly when the older list stands in the way. |
| `MfaMethod.MfaCluster.Reconcile` | internal/controller/openbao/openbaomfa_controller.go:154-221 | Server, stored versions and history change exactly as the pass function says, over any served version and Secret. |
| `MfaMethod.HashDecides` | internal/controller/openbao/openbaomfa_controller.go:472-476 | The recorded hash and the encoded field each decide the secret, with SHA-256 and base64 taken as injective. |
| `MfaMethod.HoldsExactly` | internal/controller/openbao/openbaomfa_controller.go:233-300 | The server holds the secret exactly if the field of this kind of method has it: `secret_key`, `api_token`, or base64 in `settings_file_base64`. |
| `MfaMethod.NeedsWriteExactly` | internal/controller/openbao/openbaomfa_controller.go:200-208 | A write is needed exactly if the method is missing, the hash read is another, or a non-secret field differs. |
| `MfaMethod.WriteExactly` | internal/controller/openbao/openbaomfa_controller.go:200-208 | A write puts the secret and every field of the spec in place and leaves all others. |
| `MfaMethod.WritesExactly` | internal/controller/openbao/openbaomfa_controller.go:183-207 | With its calls succeeding, a pass writes if and only if it may proceed and needs to, and then the server has the secret it read and the fields. |
| `MfaMethod.CompletesExactly` | internal/controller/openbao/openbaomfa_controller.go:154-221 | With its calls succeeding, a pass completes if and only if its Secret can be read and the policy or a recorded acquisition lets it; then the fields are on the server and the newest version records the hash and Ready. |
| `MfaMethod.ReadyIsTrue` | internal/controller/openbao/openbaomfa_controller.go:208-220 | A version stored with Ready stands for a method that has the fields of the spec, records the hash of the secret read, and holds it if the pass wrote. |
| `MfaMethod.FailureReported` | internal/controller/openbao/openbaomfa_controller.go:354-370 | A missing dependency is reported as Stalled, and an unreadable Secret, a failed read and a refused acquisition each with their reason; OpenBao is left alone. |
| `MfaMethod.WriteFailureReported` | internal/controller/openbao/openbaomfa_controller.go:200-208 | So are a failed write and a failed read-back. |
| `MfaMethod.SecretCurrentIff` | internal/controller/openbao/openbaomfa_controller.go:183-220 | In every run with stale reads, stops, rotations, reverts, adoption, outside edits and remote deletion, a completed pass leaves the secret it read on the server if and only if the version it read called for a write or the last write that reached the server was of this secret. |
| `MfaMethod.SecretConverges` | internal/controller/openbao/openbaomfa_controller.go:183-220 | Where no pass stops between the write and the recording, it does if and only if the version it read called for a write or the newest version records this hash; a pass over the newest version always does. |
| `MfaMethod.RevertAfterGapIsMissed` | internal/controller/openbao/openbaomfa_controller.go:183-220 | Rotating, stopping after the write and reverting leaves the rotated secret behind a completed pass that wrote nothing. |
| `MfaMethod.RevertOnOldVersionIsMissed` | internal/controller/openbao/openbaomfa_controller.go:183-220 | Without any stop, so does a pass served the version from before the rotation: its status is unchanged, so no status write can be refused. |

## Left out

- HTTP, TLS, URL and JSON handling: only status codes, omitted fields and encoded equality are kept; the constructor checks of the client are one predicate in `ClientCache`.
- SHA-256 and base64 are functions taken as injective where a theorem says so.
- Error texts, log lines and requeue times.
- Group.ResolveMemberships: does not write the marks on membership objects; those status objects (`updateMembershipStatuses` too) report on the group pass and feed nothing back. A failure of listing or of these writes is one fault of the pass.
- Group.GroupCluster.Reconcile: leaves out `observedGeneration`, status fields that only display what was read, the membership statuses, and the finalizer and deletion branch, which is the one modelled in `Entity`.
- Group.GroupCluster.ConvergeBound: leaves out the same status fields and the membership statuses.
- Entity.EntityCluster.Reconcile: leaves out `observedGeneration` and the status fields that only display what was read.
- Entity.EntityCluster.CorrectDrift: leaves out the same status fields.
- MfaMethod.MfaCluster.Reconcile: leaves out the method name and `observedGeneration` in the status, and the finalizer and deletion branch, which is the one modelled in `Entity`.
- Deletion and finalizer of aliases: a copy of the entity deletion modelled in `Entity`.
- The gates and status of the role controllers around request and matcher: those of `NamedLifecycle` with one adapter each.
- Deletion of name-keyed resources: it deletes by name without asking `Acquired`, so no ownership statement holds of it.
- Deleting and recreating a group object within a `GroupReadiness` run, and changing its memberships there.
- The per-type construction of an MFA method's non-secret fields, and edits of secrets by others once the operator has recorded one.
- A server that stores something other than what it was sent, such as a metadata map that comes back empty instead of absent.
- The renewal and login counters of `TokenConcurrency` are per call; time, network and credentials are chosen freely at each step.
- Policies, password policies, personas, group aliases, OIDC resources, mounts, quotas, audit devices and plugins: easier copies of these lifecycles, or field copying over `NamedLifecycle`.
- Watch wiring, namespace parsing, path validation and drift intervals.
