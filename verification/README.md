# A verified model of the network services operator

The operator reconciles gateways, traffic-protection policies, connectors and domains across many
clusters. Most of it is API plumbing; this project models the parts that are algorithms or protocols
over shared state and proves what they promise, in Dafny 4.11.

`dafny verify dfyconfig.toml` checks everything.

| part | files | main results |
|---|---|---|
| Traffic-protection policy compiler | TrafficProtection*.dfy | `CompilerIsCorrect`, `OneFilterPerChain`, `WinnerTakesSlot`, `EveryLaterAttemptConflicts`, `InputOrderIsIrrelevant` |
| Hostname claims across clusters | HostnameClaims.dfy, HostnameRaces.dfy, HostnameFinalization.dfy, ClaimPass.dfy, OwnerNames.dfy | `SafeExactlyWhenLabelsSeparate`, `ClaimHoldsUntilOwnDelete`, `ReportIsExact`, `CreateFailsExactlyWhenTaken`, `HoldsNothingExactlyWhenFound` |
| Iroh DNS claims | IrohClaims.dfy, IrohPublishing.dfy, Zbase32.dfy | `ClaimEndsByOwnDelete`, `ReconcilePublishes`, `LeavesNothingExactlyWhenIdsAgree`, `NameSpellsBits` |
| Provider rate limiter, memory and Redis | Limiter*.dfy | `BothRefineOneBucket`, `UnnoticedExactlyWhen`, `BoundedExactlyWhenCovered`, `HonouredExactlyWhen` |
| Listener gating | HostnameVerification.dfy, ListenerGating.dfy, GatewayReconcile.dfy | `ProgrammedExactlyWhenServable` |
| Connector routing compiler | ConnectorRouting.dfy, ConnectorReplay.dfy | `TableAfterPatches`, `OtherRequestsUnchanged`, `ConnectReachesTunnel`, `ClusterOfRule` |
| Registry lookup and its cache | RegistryLookup.dfy, RegistryMeaning.dfy, RegistryCache.dfy, RegistryFlights.dfy | `HitsAreExact`, `AnswersAgreeWithFresh`, `ForcedIsFetchedExactlyWhen` |
| Domain verification and refresh timers | DomainController.dfy, DomainRuns.dfy, DomainAttempts.dfy | `VerifiedExactlyWhen`, `EveryAttemptIsDisciplined`, `VerifiesAgainExactlyWhenUnsaved`, `TwoSleepsSuffice` |
| Hostname status merge | HostnameStatus.dfy | `ReconcileIsAFixpoint` |
| Secret sync labels | SecretLabels.dfy, SecretInterleaving.dfy | `PassSettles`, `LabelsFollowPolicies`, `UserLabelStandsExactlyWhen` |
| DNS record sets | DnsRecordSets.dfy, DnsServing.dfy, DnsInterleaving.dfy, DnsNames.dfy | `RecordsLastUntilOwnStep`, `SweptRecordsAreDesired`, `ProgrammedExactlyWhen`, `ProgrammedIsServed`, `RightTypeExactlyWhenMarked` |
| Sorting without stability | Ordering.dfy | `SortForgetsOrder` |

The Kubernetes API is a store of maps. Every get, list, create, update and delete is one atomic step
and reads are linearizable; a protocol is a `Step` function, a run is a list of events, and the
results quantify over every run. Code that updates objects in place is modelled as classes and
methods proved against the same functions the lemmas speak about. Clock readings, random jitter,
network answers and parsed strings are parameters.

Where the code does something its comments do not say, the model follows the code:

- Every CONNECT route is inserted at index 0, so the emitted list ends up reversed and the pure
  CONNECT fallback comes first. It takes every CONNECT request, so the path-aware routes emitted for
  extended CONNECT are never reached (`ConnectGoesToFallback`).
- A policy with inverted paranoia levels is reported Invalid and still occupies its slot
  (`EveryLaterAttemptConflicts`), which then grants nothing.
- `finalizeGateway` returns before it deletes the hostname claims when the downstream gateway is
  already gone; what the gateway then holds it keeps until a gateway of the same name is created and
  completes a pass (`LeakingRun`; exactly when: `HoldsNothingExactlyWhenFound`; how it ends:
  `LeftoverEndsAfterRecreation`).
- Losing the race to create a claim is AlreadyExists, which the code does not treat as a conflict, so
  the whole pass fails instead of listing the hostname as not claimed (`RaceIsLost`; exactly when:
  `CreateFailsExactlyWhenTaken`).
- Cluster names `a/b` and `a_b` share a label, so one gateway's pass deletes the other's claims
  (`SlashAndUnderscoreCollide`). The protocol is safe exactly for groups whose labels differ.
- Releasing an iroh record goes through the current endpoint id only; a Connector that reported two
  ids meaning different records can leave one behind (`ChangedIdOrphansRecord`).
- A requested block longer than the state lifetime is forgotten with its bucket (`MemoryForgetsBlock`,
  `RedisForgetsBlock`; exactly which requests are honoured: `HonouredExactlyWhen`).
- The domain cache is keyed by the apex although the nameservers depend on the whole name
  (`HitMayMissDelegation`), and callers that share a flight get the leader's answer
  (`AnswersAgreeWithFresh`: what it is worth, and exactly when it is their own).
- A forced refresh that joins a flight can be answered from the cache (`ForcedMayBeServedFromCache`;
  exactly when: `ForcedIsFetchedExactlyWhen`).
- A label the user sets on a Secret between the controller's read and its patch counts as managed from
  then on and goes with the policy (`RaceLosesLabel`; exactly when: `UserLabelStandsExactlyWhen`).
- A listener without a hostname is reported Programmed although it is never propagated downstream
  (`PropagatedExactlyWhenProgrammed`).
- The type of a DNS record follows the Domain the zone belongs to and not the hostname: a subdomain
  hostname under an apex Domain gets an ALIAS record (`SubdomainGetsAlias`; exactly when the type is
  right: `RightTypeExactlyWhenMarked`).
- A registration refresh that is due is held back by a desired time still to come
  (`DueRefreshIsPostponed`; exactly when it happens: `RefreshHappensExactlyWhen`).
- Two hostnames of a gateway whose truncated hashes agree share a record name, and the later one
  overwrites the record of the earlier, though both are reported programmed (`CollisionLosesRecord`;
  exactly when: `ProgrammedIsServed`, in terms of the inputs `ServedByInputs`).
- A hostname of three or more labels is never looked for as a zone itself, so an apex such as
  `example.co.uk` is not programmed in its own zone (`OwnZoneExactlyWithTwoLabels`).
- An attempt whose status update fails leaves no record, so the same desired time expedites another
  one and the next reconcile need not wait (`UnsavedAttemptIsRepeated`; exactly when:
  `VerifiesAgainExactlyWhenUnsaved`, `RefreshesAgainExactlyWhenUnsaved`, `VerifiesNextExactlyWhen`).

## Model

| member | source | states |
|---|---|---|
| TrafficProtection.GetTrafficProtectionPolicyContexts | internal/controller/trafficprotectionpolicy_controller.go:252-278 | The contexts are the live policies; of any two the earlier in the list was created earlier, or at the same time with the smaller namespace, or with the same namespace and the smaller name. |
| TrafficProtection.ContextsSorted | internal/controller/trafficprotectionpolicy_controller.go:266-276 | Policies with distinct keys are totally ordered, so the unstable sort has one possible outcome. |
| TrafficProtection.GetCorazaDirectives | internal/controller/trafficprotectionpolicy_controller.go:1261-1318 | The loops over rule sets and exclusions build the directive list the next lemma is about. |
| TrafficProtection.DirectivesSay | internal/controller/trafficprotectionpolicy_controller.go:1261-1318 | The first OWASP rule set decides: its thresholds, paranoia levels and exclusions, the policy's mode and a sampling rate below 100, and nothing else; settings before the rules are included, removals after; without such a rule set nothing at all. |
| TrafficProtection.Collector.ProcessForGateway | internal/controller/trafficprotectionpolicy_controller.go:865-981 | One gateway or listener attempt, in place: exactly one step of the slot machine, with its report and attachment. |
| TrafficProtection.Collector.ProcessForHTTPRoute | internal/controller/trafficprotectionpolicy_controller.go:713-853 | One route or rule attempt, in place: exactly one step of the slot machine, one attachment per listed parent gateway. |
| TrafficProtection.Collector.AttachToParents | internal/controller/trafficprotectionpolicy_controller.go:824-852 | The loop over parentRefs emits one attachment for each parent that is a listed gateway, in order. |
| TrafficProtection.Collector.RunPass | internal/controller/trafficprotectionpolicy_controller.go:632-697 | One of the four passes offers every target of its specificity of every policy, policies in order. |
| TrafficProtection.Collector.Collect | internal/controller/trafficprotectionpolicy_controller.go:600-702 | The four passes together produce the attachments and reports of running all attempts from an empty state. |
| TrafficProtectionConflicts.WinnerTakesSlot | internal/controller/trafficprotectionpolicy_controller.go:736-797 | A slot is taken if and only if some live policy names it, in its own namespace and with an existing section, and then by the oldest such policy, by namespace and name among equals. |
| TrafficProtectionConflicts.EveryLaterAttemptConflicts | internal/controller/trafficprotectionpolicy_controller.go:736-956 | Attempt by attempt: an attempt on a slot is accepted (or found invalid, keeping the slot) if and only if none before it was on that slot, and then its policy is the winner; every later one, also of the winner itself, is reported Conflicted. |
| TrafficProtectionConflicts.LosersOnlyConflict | internal/controller/trafficprotectionpolicy_controller.go:736-797 | A policy that does not win a slot is reported Conflicted for it and nothing else. |
| TrafficProtectionConflicts.InputOrderIsIrrelevant | internal/controller/trafficprotectionpolicy_controller.go:600-702 | Permuting the policies, gateways and routes leaves the attachment list and the reports exactly as they were. |
| TrafficProtectionPatches.BuildPatches | internal/controller/trafficprotectionpolicy_controller.go:1009-1201 | The loops over a gateway's attachments emit, in order, the patches that the replay theorem is about. |
| TrafficProtectionPatches.BuildHttpsPatches | internal/controller/trafficprotectionpolicy_controller.go:1117-1148 | One pair of patches per HTTPS listener of the gateway, for attachments not bound to a listener, and the chains they touch. |
| TrafficProtectionPatches.GroupByGateway | internal/controller/trafficprotectionpolicy_controller.go:988-997 | Grouping by gateway keeps each gateway's attachments in order and loses none; keys in order of first appearance. |
| TrafficProtectionPatches.GetDesiredEnvoyPatchPolicies | internal/controller/trafficprotectionpolicy_controller.go:983-1222 | One policy per gateway with its patches followed by the listener filters, sorted by chain. |
| TrafficProtectionPatches.ReconcilePolicies | internal/controller/trafficprotectionpolicy_controller.go:600-1222 | From listed objects to emitted policies: the composition the compiler theorem speaks about. |
| TrafficProtectionMeaning.AttachmentsPaintExpected | internal/controller/trafficprotectionpolicy_controller.go:632-697 | Reading the attachment list from the end gives every cell the most specific winner's directives. |
| TrafficProtectionMeaning.AnyOrderPaintsTheSame | internal/controller/trafficprotectionpolicy_controller.go:983-1222 | The per-gateway policies may be applied in any order. |
| TrafficProtectionMeaning.CompilerIsCorrect | internal/controller/trafficprotectionpolicy_controller.go:600-1222 | Replaying the emitted patches leaves every cell with the directives of the most specific winner selecting it, rule over route over listener over gateway, and leaves unselected cells untouched. |
| TrafficProtectionFilters.OneFilterPerChain | internal/controller/trafficprotectionpolicy_controller.go:1186-1201 | Each HTTPS chain that got a configuration gets exactly one listener-filter insertion over all emitted policies, any other none. |
| OwnerNames.ClusterLabelRoundTrip | internal/downstreamclient/mappednamespace.go:105-143 | Decoding a label returns the cluster name if and only if the name has no underscore and no leading slash. |
| OwnerNames.ClusterLabelsEqual | internal/controller/gateway_controller.go:1234-1234 | Two labels are equal exactly when the names agree up to reading a slash as an underscore. |
| OwnerNames.OwnerReferenceInjective | internal/controller/gateway_controller.go:1207-1207 | The cluster/namespace/name string identifies the gateway. |
| OwnerNames.LabelsInjectiveWithoutUnderscore | internal/controller/gateway_controller.go:1231-1238 | Without underscores in cluster names the three labels identify the gateway. |
| HostnameClaims.StepKeepsInv | internal/controller/gateway_controller.go:1213-1288 | Every atomic step keeps every entry whole and every gateway's lists backed by the ledger. |
| HostnameClaims.RunKeepsInv | internal/controller/gateway_controller.go:1192-1293 | The invariant holds after every interleaving of any number of gateways. |
| HostnameClaims.NoGatewayTouchesAnother | internal/controller/gateway_controller.go:1192-1293 | No step of one gateway creates, changes or deletes an entry of another. |
| HostnameClaims.ClaimHoldsUntilOwnDelete | internal/controller/gateway_controller.go:1213-1259 | A hostname reported claimed stays owned by that gateway until its own delete. |
| HostnameClaims.ReportIsExact | internal/controller/gateway_controller.go:1261-1292 | When a pass reports, its lists split the verified hostnames and, platform-managed names aside, its entries are exactly the claimed hostnames. |
| HostnameClaims.EqualLabelsLoseClaims | internal/controller/gateway_controller.go:1261-1288 | Two gateways with equal labels: a run in which one deletes the other's claim. |
| HostnameClaims.SafeExactlyWhenLabelsSeparate | internal/controller/gateway_controller.go:1261-1288 | A group of gateways is safe from each other in every interleaving if and only if their labels differ. |
| HostnameClaims.UnderscoreFreeIsSafe | internal/controller/gateway_controller.go:1192-1293 | Cluster names without underscores are safe. |
| HostnameClaims.SlashAndUnderscoreCollide | internal/controller/gateway_controller.go:1234-1234 | A slash and an underscore in the same place are not. |
| HostnameRaces.CreateFailsExactlyWhenTaken | internal/controller/gateway_controller.go:1229-1252 | Over every interleaving, a pass about to create a hostname fails at its next step if and only if the hostname is in the ledger by then, and then another gateway of the group, which owns it, created it after the pass had read it as absent. |
| HostnameRaces.RaceIsLost | internal/controller/gateway_controller.go:1246-1252 | A run in which the race is lost: the pass ends with the hostname in neither list. |
| HostnameFinalization.HoldsNothingExactlyWhenFound | internal/controller/gateway_controller.go:1634-1686 | A completed finalization, from any run and interleaved with anything, leaves the gateway with no entry if and only if the downstream gateway was found or it held none. |
| HostnameFinalization.FinalizedEntriesStay | internal/controller/gateway_controller.go:1595-1689 | Until a gateway of that name is created again, a finalized gateway's entries never change. |
| HostnameFinalization.SkippedFinalizeLeaks | internal/controller/gateway_controller.go:1634-1640 | With the downstream gateway gone, what the gateway held it still holds after any events up to its re-creation. |
| HostnameFinalization.LeakingRun | internal/controller/gateway_controller.go:1634-1640 | For every gateway and hostname, a run that leaks: a reported claim, the early return, and the entry still there. |
| HostnameFinalization.RepairingRun | internal/controller/gateway_controller.go:1261-1288 | For every such leak, the run that repairs it: re-creation and one pass. |
| HostnameFinalization.LeftoverEndsAfterRecreation | internal/controller/gateway_controller.go:1261-1288 | A leftover ends only by a delete of the gateway created anew. |
| HostnameFinalization.RecreatedPassSettles | internal/controller/gateway_controller.go:1192-1293 | The first pass the re-created gateway completes leaves it exactly the hostnames it claims. |
| ClaimPass.Accounting.ClaimOne | internal/controller/gateway_controller.go:1213-1259 | One hostname is claimed, found claimed or found foreign, as one or two events of the protocol. |
| ClaimPass.Accounting.ReleaseStale | internal/controller/gateway_controller.go:1261-1288 | Listing and deleting the unclaimed entries is a run of the protocol ending in the report. |
| ClaimPass.Accounting.EnsureHostnamesClaimed | internal/controller/gateway_controller.go:1192-1293 | A whole pass, the first or a later one, is a run of the protocol ending in the report, and its lists partition the verified hostnames. |
| ClaimPass.Accounting.FinalizeClaims | internal/controller/gateway_controller.go:1634-1686 | The claims part of finalization is a run of the protocol; it ends with nothing listed if and only if it did not return early or nothing was. |
| ClaimPass.UndeclaredHostnameIsReleased | internal/controller/gateway_controller.go:1261-1292 | A hostname on no upstream listener and, unless verification is disabled, in no status address is released by the same pass, even if the old downstream gateway still has it. |
| HostnameVerification.EnsureHostnameVerification | internal/controller/gateway_controller.go:1323-1464 | The verified list is sorted, without duplicates, and holds exactly the canonical and address hostnames and the declared ones that are graced or whose last labels name a verified Domain (all declared ones when verification is disabled); the Domains to create are the last two labels of exactly the declared hostnames no Domain encloses. |
| HostnameVerification.AnyVerifiedDomain | internal/controller/gateway_controller.go:1411-1422 | Whether the labels of some verified Domain are the last labels of the hostname. |
| HostnameVerification.CoversIsByLabels | internal/controller/gateway_controller.go:1413-1413 | The suffix test matches whole labels only. |
| HostnameVerification.CreatedDomainCovers | internal/controller/gateway_controller.go:1424-1455 | The Domain created for a hostname covers it: nothing more is created for it, and it is verified once that Domain is. |
| HostnameVerification.ServedHostnameSurvivesItsDomain | internal/controller/gateway_controller.go:1336-1384 | Without any Domain, a declared hostname is verified if and only if the live downstream gateway already serves it and it is not under the target domain. |
| ListenerGating.EvaluateListenerCertHealth | internal/controller/gateway_controller.go:462-536 | The map holds a verdict for exactly the listeners that own a certificate. |
| ListenerGating.GetDesiredDownstreamGateway | internal/controller/gateway_controller.go:672-762 | The desired downstream listeners are exactly the propagated ones, in upstream order, with their certificate references. |
| ListenerGating.UpdateListenerStatus | internal/controller/gateway_controller.go:1896-1993 | The status loop gives every upstream listener the conditions of the gating rules. |
| ListenerGating.ClaimPassSplitsVerified | internal/controller/gateway_controller.go:1213-1259 | The lists a claim pass reports split the verified hostnames disjointly. |
| ListenerGating.PropagatedExactlyWhenProgrammed | internal/controller/gateway_controller.go:1906-1993 | Presence in the desired downstream gateway and Programmed=True agree on a listener if and only if it has a hostname or is withheld for its certificate; so they agree on every listener with a hostname. |
| ListenerGating.GateListeners | internal/controller/gateway_controller.go:267-300 | One reconcile computes gateway and status from one health map; they agree on every listener with a hostname. A listener is served with its own settings if it names no issuer, with the shared secret only if its hostname is the target domain or within it, label by label, and otherwise with a usable certificate of its own. |
| GatewayReconcile.ProgrammedExactlyWhenServable | internal/controller/gateway_controller.go:262-300 | After every interleaving of gateways, once the claim pass over the verified hostnames has reported: a listener with a hostname is in the desired downstream gateway, and its status is Programmed, each if and only if the hostname is verified, owned (or platform-managed) and its own certificate, if any, is issued, in date and loadable; Accepted says the hostname half, and Programmed is Accepted with ResolvedRefs. |
| GatewayReconcile.ReconcileListeners | internal/controller/gateway_controller.go:262-300 | Verification, claim pass and gating chained: a run of the protocol whose report feeds a gateway and a status that agree. |
| Zbase32.EncodeRoundTrip | internal/iroh/z32.go:9-22 | z-base-32 decodes back to the same bytes, for byte strings of every length. |
| Zbase32.EndpointNameIsFaithful | internal/iroh/z32.go:25-34 | An id is refused exactly when it is not 64 hex digits, else it gives 52 alphabet characters that decode to its 32 bytes. |
| Zbase32.SameNameSameBytes | internal/controller/iroh_dns_controller.go:254-256 | Two ids get the same record name if and only if they decode to equal bytes. |
| Zbase32.NameSpellsBits | internal/iroh/z32.go:9-34 | The name spells the id's 256 bits, most significant first, five to a symbol of Zooko's alphabet, and zeros after them. |
| IrohClaims.StepKeepsInv | internal/controller/iroh_dns_controller.go:150-234 | Every atomic step keeps the truth of what each Connector has read and touches no other Connector's record. |
| IrohClaims.ClaimEndsByOwnDelete | internal/controller/iroh_dns_controller.go:150-234 | In every interleaving a claim ends only by its holder's own delete. |
| IrohClaims.WritesAreOwn | internal/controller/iroh_dns_controller.go:150-187 | Whatever a step writes or removes was absent or the actor's own. |
| IrohClaims.EndpointNameSays | internal/iroh/z32.go:25-34 | An endpoint id names a record if and only if it is 64 hex digits, and then by its bytes in z-base-32. |
| IrohPublishing.ReconcilePublishes | internal/controller/iroh_dns_controller.go:89-187 | Over every interleaving, a claiming reconcile leaves the record holding the content it saw, until its Connector's next reconcile, if and only if the record was its own when read, or absent then and still absent at the write. |
| IrohPublishing.ReconcileReleases | internal/controller/iroh_dns_controller.go:107-234 | A Connector being deleted, no longer routed or without content holds no record under its id after its reconcile, until the next. |
| IrohPublishing.CurrentContentIsPublished | internal/controller/iroh_dns_controller.go:89-187 | While the Connector does not change, a reconcile that met nobody else's claim leaves its current content published. |
| IrohClaims.FinalizerLeavesOnlyOtherNames | internal/controller/iroh_dns_controller.go:190-234 | When the finalizer goes, the record of the id the reconcile saw is released. |
| IrohClaims.SteadyRun | internal/controller/iroh_dns_controller.go:89-234 | While the reported ids keep one meaning, what a Connector holds is under that one name and it is alive with its finalizer. |
| IrohClaims.ChangedIdOrphansRecord | internal/controller/iroh_dns_controller.go:211-219 | A run in which an id change leaves a record of a deleted Connector behind. |
| IrohClaims.LeavesNothingExactlyWhenIdsAgree | internal/controller/iroh_dns_controller.go:190-234 | Deletion is sure to leave no record if and only if every id the agent may report means the same record. |
| Limiter.MemoryLimiter.EvictStale | internal/registrydata/limiter_memory.go:50-55 | The deleting loop, in any order, removes exactly the stale buckets. |
| Limiter.MemoryLimiter.Acquire | internal/registrydata/limiter_memory.go:35-80 | Field by field, the step the theorems below speak about. |
| Limiter.MemoryLimiter.BlockUntil | internal/registrydata/limiter_memory.go:82-99 | A block only ever extends, and touches the bucket. |
| Limiter.RedisLimiter.Acquire | internal/registrydata/limiter_redis.go:35-77 | The acquire script, reading and writing one hash and its expiry. |
| Limiter.RedisLimiter.BlockUntil | internal/registrydata/limiter_redis.go:78-89 | The block script, including its effect on a missing key. |
| LimiterBusy.NoneBeatsBusy | internal/registrydata/limiter_memory.go:61-71 | No use of a bucket gets more out of it than draining it every millisecond. |
| LimiterBusy.RestIsFull | internal/registrydata/limiter_memory.go:50-71 | Under the coverage condition a bucket idle long enough to be forgotten is full anyway. |
| LimiterBusy.LifetimeCoversBurst | internal/registrydata/limiter_memory.go:29-33 | Burst at most rate times lifetime implies the coverage condition. |
| LimiterBusy.CoveredExactlyWithCapacity | internal/registrydata/limiter_memory.go:50-71 | For a whole burst the coverage condition is that the burst fits the refill of the lifetime. |
| LimiterBusy.BusyLosesNothing | internal/registrydata/limiter_memory.go:61-71 | With room for a millisecond's refill beside a whole token, the busy bucket's grants are burst plus refill, rounded down. |
| LimiterRefinement.MemoryRunRefines | internal/registrydata/limiter_memory.go:35-99 | Under the coverage condition and with no block outliving the state, the evicting limiter gives the never-evicting bucket's answers and stays indistinguishable from it. |
| LimiterRefinement.RedisRunRefines | internal/registrydata/limiter_redis.go:35-89 | The same for the expiring Redis hashes. |
| LimiterRefinement.BothRefineOneBucket | internal/registrydata/limiter_redis.go:35-89 | Both limiters answer every ordered run of calls exactly as one abstract bucket per provider. |
| LimiterWindows.TokensStayInRange | internal/registrydata/limiter_memory.go:61-71 | In every ordered run tokens stay between zero and the burst. |
| LimiterWindows.LifeIsBounded | internal/registrydata/limiter_memory.go:35-80 | The window bound for any life of one bucket that is topped up, drawn from and forgotten only when full. |
| LimiterWindows.MemoryGrantsAreBounded | internal/registrydata/limiter_memory.go:35-80 | Grants to a provider in any window are at most the burst plus the rate times the seconds it spans, evictions and blocks included. |
| LimiterWindows.RedisGrantsAreBounded | internal/registrydata/limiter_redis.go:35-77 | The same bound across key expiry. |
| LimiterWindows.AbstractGrantsAreBounded | internal/registrydata/limiter_memory.go:61-71 | The bucket that is never forgotten keeps the bound whatever the lifetime. |
| LimiterPlans.ForgetfulExceeds | internal/registrydata/limiter_memory.go:50-71 | Without the coverage condition, rounds of keeping a bucket busy and having it forgotten exceed the window bound, for any limiter that forgets as these two do. |
| LimiterExactness.BoundedExactlyWhenCovered | internal/registrydata/limiter_redis.go:35-77 | For every rate and burst and for both limiters, the window bound holds in every run if and only if the coverage condition does. |
| LimiterExactness.BoundIsReached | internal/registrydata/limiter_memory.go:61-71 | With room for a millisecond's refill beside a whole token, both limiters grant a busy provider burst plus rate per second, rounded down. |
| LimiterExactness.UnnoticedExactlyWhen | internal/registrydata/limiter_redis.go:35-89 | For every rate and burst and for both limiters, forgetting idle buckets is never noticed if and only if the coverage condition holds and the limiter's own block does not outlive the state. |
| LimiterBlocks.HonouredExactlyWhen | internal/registrydata/limiter_memory.go:50-99 | After any run and for both limiters, a requested block refuses its provider at every time before its end, in every continuation, if and only if it ends within the state lifetime plus one millisecond or nothing is ever granted. |
| LimiterBlocks.MemoryHonours | internal/registrydata/limiter_memory.go:50-99 | Within the lifetime every refusal names at least the time that is left. |
| LimiterBlocks.RedisHonours | internal/registrydata/limiter_redis.go:35-89 | The same for the Redis limiter. |
| LimiterBlocks.MemoryForgetsBlock | internal/registrydata/limiter_memory.go:50-55 | After any run, another provider's call past the lifetime makes the limiter grant the blocked provider. |
| LimiterBlocks.RedisForgetsBlock | internal/registrydata/limiter_redis.go:35-89 | A longer block expires with its key and the provider is granted. |
| LimiterBlocks.MemoryRefusalIsKept | internal/registrydata/limiter_memory.go:57-80 | A refusal names the rest of a block or else the configured block (two seconds by default), and asking again before then is refused for exactly what is left. |
| LimiterBlocks.RedisRefusalIsKept | internal/registrydata/limiter_redis.go:45-77 | The same as long as the key has not expired. |
| ConnectorRouting.ClusterNamesDiffer | internal/controller/connector_routing_compiler.go:36-38 | Cluster names of two rules are equal if and only if the rules are. |
| ConnectorRouting.CollectConnectorBackends | internal/controller/httpproxy_controller.go:1757-1799 | Fails if and only if some connector backend is broken, else lists every ready backend once per match of its rule. |
| ConnectorRouting.HTTPSRouteConfigNames | internal/controller/connector_routing_compiler.go:207-231 | The names of exactly the eligible HTTPS listeners, without duplicates. |
| ConnectorRouting.HTTPSRouteConfigNamesForSection | internal/controller/connector_routing_compiler.go:233-256 | All names without a section, else the section's own name if it is an eligible HTTPS listener. |
| ConnectorRouting.IndexBackends | internal/controller/connector_routing_compiler.go:272-280 | Both maps hold exactly the rules with a backend, with the first backend's section. |
| ConnectorRouting.BuildConnectorConnectRoutes | internal/controller/connector_routing_compiler.go:263-374 | The path-aware routes in rule and match order, then the fallback. |
| ConnectorRouting.KeyInjective | internal/controller/connector_routing_compiler.go:153-157 | The seen-key determines domain and configuration when configuration names hold no bar. |
| ConnectorRouting.BuildConnectorEnvoyPatches | internal/controller/connector_routing_compiler.go:99-203 | Cluster, domain and route patches in that order; the patches the replay theorems are about. |
| ConnectorRouting.BuildConnectorOfflineEnvoyPatches | internal/controller/connector_routing_compiler.go:382-419 | One offline route for each eligible configuration. |
| ConnectorReplay.RoutesAreReversed | internal/controller/connector_routing_compiler.go:176-200 | Index-0 insertion puts the routes for a configuration in front in reverse order. |
| ConnectorReplay.TableAfterPatches | internal/controller/connector_routing_compiler.go:130-203 | The first virtual host ends as reversed CONNECT routes followed by the original ones, the others untouched. |
| ConnectorReplay.OtherRequestsUnchanged | internal/controller/connector_routing_compiler.go:176-203 | First-match selection is unchanged for every request that is not CONNECT. |
| ConnectorReplay.ConnectGoesToFallback | internal/controller/connector_routing_compiler.go:353-371 | Every CONNECT request selects the fallback route, whatever path-aware routes were emitted. |
| ConnectorReplay.FallbackIs | internal/controller/connector_routing_compiler.go:284-313 | The fallback is the last rule with a ready backend that matches CONNECT at an empty or slash path, or else the first backend's rule. |
| ConnectorReplay.AllPathRoutesAre | internal/controller/connector_routing_compiler.go:282-351 | The path-aware CONNECT routes are exactly those asked for by CONNECT matches with another path that is not a regular expression, in rules with a ready backend. |
| ConnectorReplay.DomainsAppendedOnce | internal/controller/connector_routing_compiler.go:134-168 | Each tunnel host is appended to each configuration it is for exactly once, and nothing else is. |
| ConnectorReplay.ClusterOfRule | internal/controller/connector_routing_compiler.go:110-128 | A rule's cluster ends as the tunnel to its last ready connector backend, or unchanged if it has none. |
| ConnectorReplay.OtherClustersKept | internal/controller/connector_routing_compiler.go:110-128 | No other cluster changes. |
| ConnectorReplay.ConnectReachesTunnel | internal/controller/connector_routing_compiler.go:99-203 | Every CONNECT request to an eligible HTTPS listener goes to the cluster of one rule, of those with a ready backend the last that matches CONNECT at the root or else the first, and that cluster is the tunnel to host, port and node of the rule's last ready backend. |
| ConnectorReplay.OfflineAnswers503 | internal/controller/connector_routing_compiler.go:382-419 | With no connector ready, CONNECT to an eligible HTTPS listener is answered with status 503 and everything else is as before. |
| RegistryLookup.DelegatedZoneNS | internal/registrydata/client.go:470-503 | The loop over enclosing zones computes the delegation the two lemmas below characterise. |
| RegistryLookup.ClosestZoneWins | internal/registrydata/client.go:482-500 | The zone found is the first enclosing one with records. |
| RegistryLookup.NoZoneFound | internal/registrydata/client.go:482-503 | Without records anywhere up to the apex nothing is delegated. |
| RegistryLookup.LookupDomainFresh | internal/registrydata/client.go:267-369 | RDAP first, WHOIS on no match or empty answer, nameserver choice, and partial results on a failing registrant. |
| RegistryLookup.AgreeExactlyWhenHostsDo | internal/registrydata/client.go:318-369 | Two complete lookups under one apex agree if and only if they select the same nameserver hosts. |
| RegistryLookup.AgreeByClosestZone | internal/registrydata/client.go:318-369 | Lookups of names with the same closest delegated zone are the same, failures included; complete ones agree if and only if the hosts of their closest zones do. |
| RegistryMeaning.SourceDecides | internal/registrydata/client.go:267-316 | RDAP decides whenever it has a domain; WHOIS is asked exactly when RDAP has no server or nothing, and then decides; no result exactly if RDAP fails otherwise or WHOIS fails when asked. |
| RegistryMeaning.ZonesDropLabels | internal/registrydata/client.go:482-500 | A name below the apex is asked about label by label, itself first, the apex last. |
| RegistryMeaning.HostsAreChosen | internal/registrydata/client.go:318-337 | The nameservers are those of the closest zone delegated below the apex, else those RDAP lists, else those of the apex zone. |
| RegistryMeaning.ResultSays | internal/registrydata/client.go:339-369 | Each nameserver has its addresses in order, each with its own registrant; the list ends at the first registrant that fails, which is when the lookup is an error, and its retry time is the suggested delay. |
| RegistryCache.MemoryCache.Get | internal/registrydata/cache_memory.go:27-53 | Returns an unexpired entry; after finding an expired one, looks again under the write lock and deletes what has expired by then. |
| RegistryCache.MemoryCache.Set | internal/registrydata/cache_memory.go:55-68 | Overwrites the entry with its new expiry. |
| RegistryCache.LookupDomain | internal/registrydata/client.go:121-163 | One lookup is a run of cache accesses; it returns a hit or the fresh outcome, and stores only complete ones. |
| RegistryCache.LookupReturns | internal/registrydata/client.go:121-163 | Unless forced, what the first read finds or else the second, and otherwise a fresh lookup of the name. |
| RegistryCache.HitsForEver | internal/registrydata/cache_memory.go:55-68 | Without a lifetime nothing expires. |
| RegistryCache.HitsAreExact | internal/registrydata/client.go:127-149 | After any interleaving of reads, re-checks and fresh lookups, a read hits if and only if the last complete lookup of the apex is at most the lifetime old, and returns its result. |
| RegistryCache.HitsAgreeWithFresh | internal/registrydata/client.go:121-163 | With upstream fixed, a hit has a fresh lookup's registration, source and provider; it equals it when both names have the same closest delegated zone, and for a complete lookup exactly when both select the same hosts. |
| RegistryCache.HitMayMissDelegation | internal/registrydata/client.go:127-136 | A delegated subdomain can be answered with the apex's nameservers. |
| RegistryFlights.AnswersAgreeWithFresh | internal/registrydata/client.go:121-163 | With upstream fixed, over every interleaving of callers, every answer (a hit, an own flight or a joined one, forced or not) is the fresh lookup of some name under the caller's apex, with the registration, source and provider of the caller's own; it is the caller's own when the closest delegated zones agree and, both complete, exactly when the selected hosts do. |
| RegistryFlights.ForcedIsFetchedExactlyWhen | internal/registrydata/client.go:129-152 | A forced refresh is answered by a lookup in every continuation if and only if it does not join a flight whose leader has yet to read the cache and can find something there. |
| RegistryFlights.ForcedMayBeServedFromCache | internal/registrydata/client.go:138-146 | For every name with a complete lookup, a run in which a forced refresh is answered from the cache. |
| DomainController.GetRetryInterval | internal/config/config.go:454-462 | The first interval covering the elapsed time, else five minutes. |
| DomainController.Domain.ReconcileVerification | internal/controller/domain_controller.go:166-336 | Field by field, the verification step the run theorems speak about. |
| DomainController.Domain.ReconcileRegistration | internal/controller/domain_controller.go:577-665 | Field by field, the refresh step the run theorems speak about. |
| DomainController.RequeueAfter | internal/controller/domain_controller.go:132-161 | At least one second, and never past the later of each pending timer and one second from now. |
| DomainController.TwoSleepsSuffice | internal/controller/domain_controller.go:144-156 | At most two sleeps reach a future timer, less than a second late. |
| DomainRuns.RunKeeps | internal/controller/domain_controller.go:166-336 | In every run the stored, truncated timers match the recorded attempts. |
| DomainRuns.VerifiedIsAbsorbing | internal/controller/domain_controller.go:207-230 | Verified stays, with no scaffolding and no further attempt. |
| DomainRuns.VerifiedWasProved | internal/controller/domain_controller.go:207-320 | A fresh Domain becomes verified only through a probe that succeeded. |
| DomainRuns.VerifiedExactlyWhen | internal/controller/domain_controller.go:207-320 | After any run, a saved reconcile leaves the Domain verified if and only if it was already, or a DNSZone proves it, or an attempt is due (scaffolding, and the timer is over or a desired time has come) and its DNS or HTTP probe succeeds. |
| DomainRuns.SecondReconcileVerifies | internal/controller/domain_controller.go:231-309 | The first reconcile publishes the token, the next verifies if and only if some probe succeeds. |
| DomainRuns.UnverifiedReportsNo | internal/controller/domain_controller.go:321-328 | While a Domain is unverified every saved reconcile reports all four conditions false. |
| DomainRuns.TokenStays | internal/controller/domain_controller.go:231-299 | The token to publish never changes while the Domain waits to be verified. |
| DomainRuns.FailedVerificationWaits | internal/controller/domain_controller.go:280-290 | After an attempt whose probes fail the next is due after the first interval covering the time unverified (else five minutes) plus jitter, in whole seconds. |
| DomainRuns.LookupWaits | internal/controller/domain_controller.go:640-664 | A successful lookup waits the refresh interval or longer if told so, a rate limit what it says, any other failure the backoff. |
| DomainAttempts.EveryAttemptIsDisciplined | internal/controller/domain_controller.go:121-131 | Over every run and all attempts made, recorded or not: a desired time expedites again only if the earlier attempt it expedited was not recorded, and an attempt nobody expedited waits out the interval of the last recorded one. |
| DomainAttempts.VerifiesAgainExactlyWhenUnsaved | internal/controller/domain_controller.go:252-299 | After any run, once a desired time expedites a verification, a later reconcile is expedited by it again if and only if no status update in between succeeded (and no DNSZone proves the domain). |
| DomainAttempts.RefreshesAgainExactlyWhenUnsaved | internal/controller/domain_controller.go:587-617 | The same for registration lookups. |
| DomainAttempts.VerifiesNextExactlyWhen | internal/controller/domain_controller.go:270-299 | After an attempt the next reconcile attempts again if and only if the status update failed, or the stored interval is over, or a desired time expedites it. |
| DomainAttempts.RefreshesNextExactlyWhen | internal/controller/domain_controller.go:587-617 | The same for registration, where a desired time still to come holds a due refresh back. |
| DomainAttempts.RefreshHappensExactlyWhen | internal/controller/domain_controller.go:590-617 | A registration lookup happens if and only if a desired time expedites it, or it is due and no pending desired time lies ahead. |
| DomainAttempts.DueRefreshIsPostponed | internal/controller/domain_controller.go:598-613 | Every due refresh is held back by a pending desired time still to come. |
| DomainAttempts.UnsavedAttemptIsRepeated | internal/controller/domain_controller.go:121-131 | A run from a fresh Domain in which one desired time expedites two verifications and two lookups. |
| DomainRuns.WakingAttempts | internal/controller/domain_controller.go:234-290 | Waking at or after the returned time, with the status saved, makes the attempt. |
| HostnameStatus.MergeHostnameStatuses | internal/controller/httpproxy_controller.go:1452-1479 | One entry per hostname, strictly sorted. |
| HostnameStatus.LastSourceWins | internal/controller/httpproxy_controller.go:1452-1466 | Of several sources naming one condition the last decides status and detail. |
| HostnameStatus.CollectIs | internal/controller/httpproxy_controller.go:1452-1466 | The merged conditions of a hostname depend on that hostname's entries only. |
| HostnameStatus.PreserveTransitions | internal/controller/httpproxy_controller.go:1485-1505 | In place, a condition keeps its old time exactly when its status did not change. |
| HostnameStatus.PreservedSays | internal/controller/httpproxy_controller.go:1485-1505 | Nothing but times changes, and a time becomes the old one exactly if the hostname had that condition with the same status. |
| HostnameStatus.BuildAvailabilityStatuses | internal/controller/httpproxy_controller.go:1086-1118 | Each hostname's entries, whatever order the sets are visited in. |
| HostnameStatus.AvailabilityIsStable | internal/controller/httpproxy_controller.go:1086-1118 | Built again later and in another order, the availability statuses are the same source. |
| HostnameStatus.AvailableExactlyWhenClaimed | internal/controller/httpproxy_controller.go:1086-1118 | After the merge a hostname is Available exactly if it was claimed and nobody else uses it, and reported in use exactly if somebody does. |
| HostnameStatus.SameSourcesTogether | internal/controller/httpproxy_controller.go:550-555 | Sources that are each the same are the same together. |
| HostnameStatus.ReconcileIsAFixpoint | internal/controller/httpproxy_controller.go:1452-1505 | Feeding the output back, as computed or as stored with times truncated to whole seconds, at any later time and in any order, reproduces it exactly; it is strictly sorted. |
| HostnameStatus.AnyTimesAreKept | internal/controller/httpproxy_controller.go:1485-1505 | Any stored status that agrees with the sources up to times is reproduced, times included. |
| HostnameStatus.ReconcileStatuses | internal/controller/httpproxy_controller.go:550-555 | Merge then preserve, as the fixpoint lemma needs it. |
| SecretLabels.SecurityPolicySecretRefs | internal/controller/gateway_resource_replicator_securitypolicy_guard.go:51-93 | Lists a Secret if and only if one of the four places of the spec references it. |
| SecretLabels.ReferencedNames | internal/controller/gateway_resource_replicator_securitypolicy_propagate.go:45-57 | Exactly the names some live policy needs in the namespace. |
| SecretLabels.Namespace.EnsureSecretSyncLabel | internal/controller/gateway_resource_replicator_securitypolicy_propagate.go:68-101 | Labels and marks an unlabelled Secret, leaves any other. |
| SecretLabels.Namespace.GcSecretSyncLabels | internal/controller/gateway_resource_replicator_securitypolicy_propagate.go:103-134 | Unlabels exactly the managed, unreferenced Secrets. |
| SecretLabels.Namespace.ReconcileReferencedSecretLabels | internal/controller/gateway_resource_replicator_securitypolicy_propagate.go:29-66 | One pass over the policies, loops in any order. |
| SecretLabels.PassIsRight | internal/controller/gateway_resource_replicator_securitypolicy_propagate.go:29-134 | Needed Secrets are labelled, managed labels are needed, the user's labels are untouched, a second pass changes nothing. |
| SecretLabels.HistoryForgottenExactlyWhenClean | internal/controller/gateway_resource_replicator_securitypolicy_propagate.go:68-134 | Only the last pass decides a Secret's label and annotation values if and only if it had no leftover annotation and no foreign value under a managed label. |
| SecretInterleaving.PassSettles | internal/controller/gateway_resource_replicator_securitypolicy_propagate.go:29-134 | With policies and other Secrets changing between any two API calls, a pass that gets to its end has made of every Secret nobody edited meanwhile exactly what one uninterrupted pass over the listed policies makes of it. |
| SecretInterleaving.LabelsFollowPolicies | internal/controller/gateway_resource_replicator_securitypolicy_propagate.go:29-134 | After any interleaving without an edit between a read of the Secret and its patch, a pass begun after its last edit leaves it labelled if and only if a listed live policy needs it or its user labelled it; user labels and data are untouched; a clean Secret is what one pass makes of it. |
| SecretInterleaving.LabelSurvives | internal/controller/gateway_resource_replicator_securitypolicy_propagate.go:29-134 | A label survives everything but its user, between any two calls, while every pass that begins finds a live policy needing it. |
| SecretInterleaving.UserLabelStandsExactlyWhen | internal/controller/gateway_resource_replicator_securitypolicy_propagate.go:83-130 | A label the user sets stays as set in every continuation if and only if no patch of that Secret is on its way or that patch would not change it. |
| SecretInterleaving.RaceLosesLabel | internal/controller/gateway_resource_replicator_securitypolicy_propagate.go:80-94 | A run in which a label set between read and patch becomes managed and is removed with the policy. |
| DnsRecordSets.PossibleZoneNames | internal/controller/gateway_dns_controller.go:499-521 | The candidates the next two lemmas are about. |
| DnsRecordSets.ZonesAreEnclosing | internal/controller/gateway_dns_controller.go:499-521 | Every candidate encloses the hostname at a label boundary and they get strictly shorter. |
| DnsRecordSets.LongestUsableZone | internal/controller/gateway_dns_controller.go:109-151 | A zone is chosen if and only if some candidate has a verified Domain and a zone with authority, and it is the longest such. |
| DnsRecordSets.ZoneNamesAreCandidates | internal/controller/gateway_dns_controller.go:499-521 | The candidates are exactly the label suffixes of two or more labels, the whole hostname only if it has two. |
| DnsRecordSets.NamesTellGateways | internal/controller/gateway_dns_controller.go:489-492 | Equal record names come from equal gateways. |
| DnsRecordSets.Namespace.CreateOrUpdate | internal/controller/gateway_dns_controller.go:292-332 | Writes the desired record unless a foreign one is there; the start time survives updates. |
| DnsRecordSets.Namespace.HasConflict | internal/controller/gateway_dns_controller.go:258-288 | Whether a record of somebody else serves the hostname in the zone. |
| DnsRecordSets.Namespace.GarbageCollect | internal/controller/gateway_dns_controller.go:445-483 | Deletes exactly the gateway's own records outside the desired names. |
| DnsRecordSets.Namespace.EnsureDNSRecordSets | internal/controller/gateway_dns_controller.go:59-388 | The whole pass, with one outcome per hostname. |
| DnsRecordSets.OwnRecordsAreDesired | internal/controller/gateway_dns_controller.go:378-388 | After a pass the gateway owns no record but for its desired names. |
| DnsRecordSets.ForeignRecordsStay | internal/controller/gateway_dns_controller.go:292-302 | A record with a non-empty foreign managed-by label is never written or deleted. |
| DnsRecordSets.OtherGatewaysRecordsStay | internal/controller/gateway_dns_controller.go:445-492 | A pass leaves every other gateway's records as they are. |
| DnsServing.ProgrammedExactlyWhen | internal/controller/gateway_dns_controller.go:109-332 | In terms of the records before the pass, when none without a managed-by label under one claimed hostname's record name speaks for another: a hostname is reported programmed if and only if a zone is found, nobody else's record serves it there and its record name is not in foreign hands. |
| DnsServing.OutcomesSay | internal/controller/gateway_dns_controller.go:59-388 | Every outcome by the records before the pass: skipped, not programmed, conflict, failed or programmed. |
| DnsServing.ProgrammedIsServed | internal/controller/gateway_dns_controller.go:240-375 | A hostname reported programmed has its record (owner the hostname, target the canonical hostname, both absolute, in the chosen zone) when the pass is over, if and only if no later hostname with the same truncated hash was programmed over it; unless an unlabelled record speaks for another hostname, if and only if none has a zone and no conflict before the pass. |
| DnsServing.ServedByInputs | internal/controller/gateway_dns_controller.go:240-375 | The same without mention of an outcome: a programmable hostname is served after the pass if and only if no later programmable one collides with it. |
| DnsServing.CollisionLosesRecord | internal/controller/gateway_dns_controller.go:489-492 | Two hostnames with one truncated hash, both reported programmed, the first without its record. |
| DnsServing.OwnZoneExactlyWithTwoLabels | internal/controller/gateway_dns_controller.go:499-521 | A hostname usable as a zone is its own zone if and only if it has two labels. |
| DnsServing.RightTypeExactlyWhenMarked | internal/controller/gateway_dns_controller.go:238-242 | A programmed record is ALIAS for the zone apex and CNAME otherwise if and only if the Domain of the chosen zone is marked apex just when the hostname is that zone, which is when it has two labels. |
| DnsServing.SubdomainOfApexGetsAlias | internal/controller/gateway_dns_controller.go:238-242 | A programmed hostname of three or more labels under a Domain marked apex gets an ALIAS. |
| DnsServing.SubdomainGetsAlias | internal/controller/gateway_dns_controller.go:238-242 | For example a.b.c under the apex Domain b.c. |
| DnsInterleaving.RunKeepsInv | internal/controller/gateway_dns_controller.go:59-388 | Through any interleaving of writes, lists and deletes of any gateways and foreign edits, records are named for their gateways and every sweep covers exactly its gateway's stale records. |
| DnsInterleaving.StepTouchesOwnOnly | internal/controller/gateway_dns_controller.go:292-375 | No step of a gateway changes another gateway's record or one with a foreign managed-by label. |
| DnsInterleaving.RecordsLastUntilOwnStep | internal/controller/gateway_dns_controller.go:59-388 | Through any interleaving of other gateways' steps and foreign edits a gateway's record stays exactly as it is. |
| DnsInterleaving.SweptRecordsAreDesired | internal/controller/gateway_dns_controller.go:445-483 | When a gateway has deleted all it listed, whatever others did meanwhile, its records are within the desired names. |
| DnsInterleaving.ProgramIsPut | internal/controller/gateway_dns_controller.go:292-332 | The uninterrupted pass is made of these writes. |
| DnsInterleaving.SweepIsCollect | internal/controller/gateway_dns_controller.go:445-483 | Listing and then deleting what was listed, in any order, leaves what the uninterrupted collection leaves. |

## Left out

- Kubernetes clients, watches, event mapping, informer staleness, contexts and logging: replaced by an atomic store with linearizable reads.
- RDAP, WHOIS, DNS, HTTP and X.509 content, the public suffix list, SHA-256 and JSON encoding: inputs or oracles. Cached values are taken to survive their JSON round trip.
- JSONPath text and the strings of route configuration names in the policy compiler: selectors are predicates over cells and names are values.
- The datum-gateway metadata patches of the policy compiler appear in the emitted list but carry no meaning in the replay: they do not follow the directive patches.
- `updateTPPAncestorsStatus`: it shrinks a slice while ranging over it and is right for at most one stale ancestor.
- Certificate re-issuance and its retry cap: no bound over whole runs follows from the code.
- Domains that are not registrable: the name is immutable, so such a Domain never attempts anything.
- RegistryCache.LookupDomain: is one caller on its own; `RegistryFlights` interleaves callers that share a flight. That a cancelled leader fails everybody in its flight is an upstream failure there.
- Caching inside nameserver and IP registrant lookups: their answers are part of the upstream oracle.
- The Redis cache backend; clock skew between Redis and its clients.
- Floating point: token counts are reals. Times are whole milliseconds in the limiter and cache, whole nanoseconds in the Domain controller.
- DnsRecordSets.Namespace.EnsureDNSRecordSets: runs undisturbed and without API errors; `DnsInterleaving` interleaves its API calls.
- DnsServing.ProgrammedExactlyWhen: an unlabelled record under one claimed hostname's record name that speaks for another is excluded; programming the one removes it from the other's conflict check within the pass.
- DnsServing.OutcomesSay: the same exclusion.
- DnsServing.ServedByInputs: the same exclusion; `ProgrammedIsServed` covers that case too, in terms of the outcomes.
- `missingDownstreamSecrets`, `holdSecurityPolicy`, connector readiness conditions, offline filters per route, validation, network and subnet controllers, challenge controllers: only easy members.
- TrafficProtectionMeaning.CompilerIsCorrect: takes the routes of every listener that is not HTTPS to be in the http-80 configuration, as the compiler does; which ports a gateway may use is restricted at admission (internal/validation/gateway_validation.go:109-111).
- ConnectorRouting.BuildConnectorEnvoyPatches: assumes namespace, gateway and listener names contain no bar, as Kubernetes names do.
- ConnectorReplay.ConnectGoesToFallback: takes Envoy's connect matcher to accept every CONNECT request.
