# KyClash route interlock, verified

KyClash gives a VPN's private routes to a root helper. The helper adds routes only under a lease
that the tunnel broker, another root process, holds for it, and both must survive lost messages,
failed writes and crashes. This project models that protocol and the repository's other cores in
which a fast form must agree with a simple one, and proves them against independent statements of
what they are for.

- **Route helper and broker** (`RouteBindings`, `RouteJournal`, `SessionLease`, `Broker`,
  `BrokerRuns`, `TunnelBrokerCoordinator`, `Interlock`, `InterlockSafety`, `InterlockRuns`,
  `HelperOutcomes`, `RouteHelper`, `LeaseFates`). The broker's critical sections and the helper's atomic actions
  are steps of one transition system. The environment may delay or lose messages, change the
  table, let a failed command take effect and kill the helper between any two steps. The broker
  lives on. The classes `SessionLeaseState`, `TunnelBrokerCoordinator` and
  `RouteHelperV3Coordinator` follow the source method by method. The two coordinators append each
  of their sections and interactions to a ghost run, so the theorems about runs hold inside their
  methods too.
- **Address arithmetic and text** (`Bits`, `Prefixes`, `RouteNetworks`, `NetworkPrefixes`, `Texts`,
  `AddressText`, `ProductionProfile`). Byte loops in the helper and bit masks in the profile
  checker are both tied to "some address lies in both prefixes".
- **Draft cell** (`Drafts`), **traffic sampler** (`TrafficSampler`) and **connection history**
  (`ConnectionHistory`).

`dafny verify dfyconfig.toml` checks everything.

## How to read the helper's promises

A contract of `RouteHelperV3Coordinator` speaks of ghost counters: `faults` (failed commands,
inspections and lost answers; `storeFaults` counts the failed writes and unlinks among them),
`refusals` (answers other than the one asked for), `overlaps` (foreign routes that came over the
lease's CIDRs) and `meddling` (any foreign change of the table). `answers` lists what the broker's
answers were, as `Ask` received them. "Undisturbed" means that faults, refusals and overlaps stand still. Safety holds whatever they do. A table is
"clear" for a CIDR when nothing in it conflicts with that CIDR but one route of the lease.

## Findings

- An undisturbed attempt retires a lease exactly when its process is not stuck and the table is clear
  for the CIDRs that the record names (`RetireLocked`). A stuck process and a refused
  release outlast every retry.
  - *Stuck*: a process that loaded a Released record and whose unlink took effect while reporting
    failure can never retire that lease. Each attempt answers `journal_write_failed` until a
    restart. `RetireLocked` states this as an exact condition and `StuckIsReachable` gives the run.
  - *Refused*: the broker accepts a release exactly of the tombstone, or of its active session while
    nobody else has or had the authority (`ReleaseAcceptedExactlyWhen`, `RefusedAnswersAreTrue`). Once
    the session was started, a refusal is for good (`RefusedForGoodExactlyWhen`). Before that, a
    later session may still accept the release (`UnstartedReleaseMaySucceed`).
  - A lease that the broker has ever held is never refused while its record is on disk
    (`ClaimedLeaseStaysReleasable`). A lease whose hold request was lost is refused as soon as its
    session ends or is claimed by another (`AcceptanceIsLostExactlyWhen`). Three runs lead there:
    the session is stopped (`StrandedIsReachable`), a legacy hold claims it (`ClaimedSessionStrands`),
    or it had released an earlier lease (`SecondLeaseStrands`).
  - No step of any process, restarts included, then ever removes the record (`StrandedForGood`), so
    no new lease can begin.
  - Nothing is held and no route is left when stuck or stranded.
- `recover` is admitted exactly when the lease is in memory. A `begin` whose first write lands but
  reports failure leaves a HoldPending record that no client can recover before a restart
  (`UnclaimedRecordIsReachable`). Nothing is held or added in that state.
- `stop` may answer idle while the session is held, by a hold that came while the child was being
  reaped (`Stop`, `IdleStopMayLeaveAHold`).
- The bound of 500 closed connections fails exactly when an id is removed twice and not everything
  fits (`MergeKeepsLastExactlyWhen`, `OverflowIsReachable`).
- Three self-test expectations in macos/route-helper/main.swift do not match the coordinator, which
  the model follows. Line 4022 expects a status of a loaded lease to reply `recovery_only`: by
  `Status` it replies with the lease's own state and the broker failure. Line 4088 expects a status
  in recovery-only to reply `retirement_pending`: by `Status` it replies `recovery_only`. Line 4117
  expects a retry after a lost removal not to release again: by `RecordRelease` the lease in memory
  is still RetirementPending, and `Release` asks the broker again.

## Model

| member | source | states |
|---|---|---|
| `InterlockSafety.StepKeepsInv` | macos/route-helper/main.swift:3199-3503 | every atomic step of helper, broker, transport, store, route table and crash keeps the joint invariant |
| `InterlockRuns.EveryRouteIsCovered` | macos/route-helper/main.swift:3199-3301 | at every moment of every run, a helper route still in the table is named by the durable record as applied or pending, and the broker holds exactly that record's tuple |
| `InterlockRuns.NoHoldIsOrphaned` | macos/route-helper/main.swift:3212-3258 | whenever the broker holds a v3 tuple, a durable record of that tuple exists, also when a hold request arrives after the helper gave up and released |
| `InterlockRuns.NoRecordMeansClean` | macos/route-helper/main.swift:3485-3502 | without a record on disk there is no helper route, no held tuple, and no request under way that could bring one |
| `InterlockRuns.RoutesAreAddedUnderAuthority` | macos/route-helper/main.swift:3220-3281 | a route is added only by the process that began the lease, after it received the broker's acknowledgement of the exact tuple, with the durable record Held and marked for that route, while the broker still holds the tuple |
| `InterlockRuns.RecoveryIsSticky` | macos/route-helper/main.swift:3263-3281 | after a lease entered recovery-only, or was loaded from disk by a restarted process, no route is added until that lease has been retired from memory |
| `InterlockRuns.CorruptStoreBlocks` | macos/route-helper/main.swift:3139-3148 | a store found corrupt at start blocks every store, route and broker action, of that process and of every later one |
| `InterlockRuns.StatusAnswersAreTrue` | macos/tunnel-broker/main.swift:1035-1056 | a status answer "held" that reaches the helper was true of that tuple when the broker gave it |
| `RouteHelper.RouteHelperV3Coordinator.constructor` | macos/route-helper/main.swift:3139-3157 | a process started over what any run has left behind when cut off at any moment loads the stored record or the corrupt flag, and is in a valid state |
| `RouteHelper.RouteHelperV3Coordinator.Persist` | macos/route-helper/main.swift:3055-3102 | a successful write is on disk and cached; a failed one leaves the old record or the new one on disk |
| `RouteHelper.RouteHelperV3Coordinator.RemoveRecord` | macos/route-helper/main.swift:3104-3116 | only the cached record, unchanged on disk, is unlinked; a failed unlink may still have removed it |
| `RouteHelper.RouteHelperV3Coordinator.Register` | macos/route-helper/main.swift:3177-3186 | a connection is admitted exactly when none is registered |
| `RouteHelper.RouteHelperV3Coordinator.Discover` | macos/route-helper/main.swift:3188-3197 | which of the four replies is given, each exactly when |
| `RouteHelper.RouteHelperV3Coordinator.Begin` | macos/route-helper/main.swift:3199-3259 | the ending is determined by the broker's answer and the store: held and on disk after a held answer, record removed and lease and connection forgotten after a typed rejection, HoldPending kept in recovery-only after an ambiguous or lost answer or a failed store command; without mishap it succeeds exactly when every CIDR was available |
| `RouteHelper.RouteHelperV3Coordinator.Apply` | macos/route-helper/main.swift:3261-3301 | success adds exactly the owner's CIDRs to an unmeddled table and records them all; an available table and no mishap guarantee success with every postflight clean; failure enters recovery-only and says whether a marked route or the record after it failed |
| `RouteHelper.RouteHelperV3Coordinator.ApplyRoutes` | macos/route-helper/main.swift:3270-3291 | the loop of apply: every route is marked on disk before it is added and recorded after it was seen |
| `RouteHelper.RouteHelperV3Coordinator.Rollback` | macos/route-helper/main.swift:3303-3305 | an admitted rollback retires the lease with the outcome of RetireLocked; any other changes nothing |
| `RouteHelper.RouteHelperV3Coordinator.Recover` | macos/route-helper/main.swift:3307-3320 | the registered connection that presents the exact owner of the lease in memory is always admitted, whatever failed before and whoever had the lease; nobody else is |
| `RouteHelper.RouteHelperV3Coordinator.ReconcileStartup` | macos/route-helper/main.swift:3325-3343 | one attempt at start retires the loaded lease with the outcome of RetireLocked, and leaves no connection registered |
| `RouteHelper.RouteHelperV3Coordinator.Heartbeat` | macos/route-helper/main.swift:3345-3354 | which reply is given; an admitted one asks the broker once and enters recovery-only exactly when the answer is not held |
| `RouteHelper.RouteHelperV3Coordinator.Status` | macos/route-helper/main.swift:3356-3365 | as heartbeat, for any registered connection |
| `RouteHelper.RouteHelperV3Coordinator.StatusWithBroker` | macos/route-helper/main.swift:3367-3386 | the lease and its record stay; unless the release is on record the broker is asked once, and recovery-only is entered and reported exactly when it does not answer held |
| `RouteHelper.RouteHelperV3Coordinator.Invalidate` | macos/route-helper/main.swift:3388-3396 | the connection goes, and its lease is retired with the outcome of RetireLocked |
| `RouteHelper.RouteHelperV3Coordinator.HeartbeatWatchdogTick` | macos/route-helper/main.swift:3161-3174 | a missed deadline retires exactly an active lease that is pending, held or applied |
| `RouteHelper.RouteHelperV3Coordinator.RetireLocked` | macos/route-helper/main.swift:3398-3503 | every attempt ends retired (no record, no hold, no route, nothing remembered) or keeps the lease for another attempt and says whether the store, the release or the routes failed; undisturbed, with an unmeddled table, it completes exactly when it is not stuck and no foreign row conflicts with a CIDR that the record names, and the table then loses exactly those routes |
| `RouteHelper.RouteHelperV3Coordinator.RetireRoutes` | macos/route-helper/main.swift:3419-3465 | the deletion loop: a CIDR is dropped from the record only after its route was seen gone, so retirement finds both lists empty |
| `RouteHelper.RouteHelperV3Coordinator.EnterRetirement` | macos/route-helper/main.swift:3467-3503 | RetirementPending is written only for a record that names nothing |
| `RouteHelper.RouteHelperV3Coordinator.BeginApplyRollback` | macos/route-helper/main.swift:3199-3305 | begin, apply and rollback without a mishap restore the original multiset of table entries |
| `RouteHelper.RouteHelperV3Coordinator.RecordRelease` | macos/route-helper/main.swift:3492-3502 | after the acknowledged release the record is removed and the lease over, or RetirementPending stays in memory, so that the next attempt releases again |
| `HelperOutcomes.HoldAnswerMeans` | macos/route-helper/main.swift:3532-3542 | the adapter reads the broker's reply to a hold as rejected exactly when the broker does not hold the tuple, as held exactly when it does with no recovery due, and a reply other than held changed nothing |
| `HelperOutcomes.ReleaseAnswerMeans` | macos/route-helper/main.swift:3544-3554 | a release whose section is done reads as released exactly when the broker accepted it, and else as rejected |
| `HelperOutcomes.StatusAnswerMeans` | macos/route-helper/main.swift:3556-3568 | a status reads as held exactly for the held tuple without recovery due, as idle exactly for the tombstone, and as idle or running exactly for a release on record |
| `LeaseFates.StuckIsReachable` | macos/route-helper/main.swift:3325-3418 | a run by the helper's own steps: a lost hold, a recover that dies after writing Released, and a retirement at start whose unlink takes effect but reports failure; the process is stuck, another start is not |
| `LeaseFates.UnclaimedRecordIsReachable` | macos/route-helper/main.swift:3199-3217 | a registered client's begin whose first write lands and reports failure leaves a record that no client owns until a restart; nothing is held or added |
| `LeaseFates.StrandedIsReachable` | macos/route-helper/main.swift:3220-3258 | a run by the helper's own steps: begin, the hold request lost, and the session stopped and reaped, strands the lease |
| `LeaseFates.ClaimedSessionStrands` | macos/tunnel-broker/main.swift:697-704 | a run by the helper's own steps: the hold request lost, and a legacy hold of the same session, strands the lease while its session lives |
| `LeaseFates.SecondLeaseStrands` | macos/tunnel-broker/main.swift:697-704 | a run by the helper's own steps: the first lease of a session is released and retired, the second begins and its hold request is lost; the second is stranded while its session lives |
| `LeaseFates.StrandedForGood` | macos/route-helper/main.swift:3485-3502 | over every continuation, restarts included, a lease whose release the broker refuses once its session was started, ended or not, keeps its record, is never marked Released nor unlinked, and nothing is held or added |
| `LeaseFates.RefusedAnswersAreTrue` | macos/tunnel-broker/main.swift:989-1033 | a release the helper sees refused was delivered when the broker did not accept it, and unless its session was yet to be started then, it is refused for good |
| `LeaseFates.ClaimedLeaseStaysReleasable` | macos/tunnel-broker/main.swift:989-1033 | once the broker has held a lease or taken its release, it accepts that release at every later moment at which the record is on disk, through losses, crashes and any number of later sessions; such a lease is never stranded |
| `RouteJournal.TransitionedExactlyWhen` | macos/route-helper/main.swift:1119-1155 | a macro step succeeds exactly for a valid record, the exact tuple and one of six steps; it yields a valid record of the same owner numbered one higher, and none leaves Released |
| `RouteJournal.TransitionNumbersStates` | macos/route-helper/main.swift:1079-1155 | every chain of macro steps from a new lease is at most four long, numbered by position, and Released ends it |
| `RouteJournal.NewJournalIsValid` | macos/route-helper/main.swift:1069-1118 | a valid owner gives a valid HoldPending record of exactly that owner |
| `RouteJournal.UtunNamesAreNumbered` | macos/route-helper/main.swift:2760-2769 | the accepted interface names are exactly utun followed by a decimal number without leading zeros, within 15 characters |
| `RouteNetworks.NetworksOverlap` | macos/route-helper/main.swift:1438-1450 | the byte loop decides whether the common leading bits agree |
| `RouteNetworks.OverlapsMeansCommonAddress` | macos/route-helper/main.swift:1438-1450 | that is: some address lies in both networks |
| `RouteNetworks.IsCanonicalNetwork` | macos/route-helper/main.swift:1452-1470 | the byte loop decides that the address is a multiple of its block size |
| `RouteNetworks.PrivateCidrsAreDisjoint` | macos/route-helper/main.swift:194-203 | the double loop decides pairwise disjointness |
| `RouteNetworks.InspectTarget` | macos/route-helper/main.swift:1563-1586 | the loop over the table reports owned-exact and foreign conflict as the table has them |
| `RouteNetworks.InspectionMeans` | macos/route-helper/main.swift:1505-1523 | in terms of addresses: which rows an inspection minds, what owned-exact, foreign conflict and available then mean |
| `RouteNetworks.ExemptRowChangesNothing` | macos/route-helper/main.swift:1505-1519 | a default route, and a route that covers the target through a trusted interface, never change an inspection |
| `RouteNetworks.OtherRowIsReported` | macos/route-helper/main.swift:1505-1523 | any other row over an address of the target is reported, as the own route or as a conflict |
| `RouteNetworks.UnspecifiedOrMulticastMeans` | macos/route-helper/main.swift:1499-1503 | the address is zero, or 224.0.0.0 or more, or ff00:: or more |
| `RouteNetworks.CleanInspectionForwards` | macos/route-helper/main.swift:1505-1586 | where a target is owned-exact without foreign conflict, longest-prefix lookup (section 5.1 of RFC 4632) sends every address of it to the helper's interface |
| `SessionLease.LegacyCallsMoveForward` | macos/tunnel-broker/main.swift:648-676 | a legacy call never exchanges a session's claim, nor revives a released one |
| `SessionLease.V3CallsMoveForward` | macos/tunnel-broker/main.swift:678-740 | nor does a v3 call or a watchdog tick |
| `SessionLease.RefusalsChangeNothing` | macos/tunnel-broker/main.swift:648-731 | a call that reports an error leaves the lease as it was |
| `SessionLease.SessionLeaseState.Hold` | macos/tunnel-broker/main.swift:648-663 | granted exactly to a valid lease id of this session while nobody else has or had the authority; it then has it; one authority is kept and a refusal changes nothing |
| `SessionLease.SessionLeaseState.Release` | macos/tunnel-broker/main.swift:665-676 | accepted exactly from the lease id that has or had the authority, as often as it asks; the authority is then given up for good |
| `SessionLease.SessionLeaseState.HoldV3` | macos/tunnel-broker/main.swift:678-695 | granted exactly to a tuple of this session while nobody else has or had the authority and no recovery is due; unavailable exactly when the tuple holds and recovery is due |
| `SessionLease.SessionLeaseState.ReleaseV3` | macos/tunnel-broker/main.swift:697-717 | accepted exactly for the one tuple of this session, held, released already or never seen; it has then released for good |
| `SessionLease.SessionLeaseState.StatusV3` | macos/tunnel-broker/main.swift:719-731 | leaves the authority alone, and is positive exactly for the tuple that has it, unless recovery is due, or had it |
| `SessionLease.SessionLeaseState.MarkHeartbeatExpired` | macos/tunnel-broker/main.swift:733-740 | leaves the authority alone, and asks for recovery of every hold that was heard of and has gone silent |
| `Broker.NextKeepsInv` | macos/tunnel-broker/main.swift:742-1088 | every critical section keeps: generations below the counter, one authority per lease, and tickets of reaping calls that name sessions already started |
| `BrokerRuns.HeldSessionsAreKept` | macos/tunnel-broker/main.swift:835-962 | no section forgets a session that records a hold or whose child still runs |
| `BrokerRuns.SecondSectionClearsWhatItSaw` | macos/tunnel-broker/main.swift:835-1033 | a re-entered section that clears a session clears the very one its first section saw, never replaced meanwhile, its child exited |
| `BrokerRuns.OneSessionPerGeneration` | macos/tunnel-broker/main.swift:791-833 | a generation names one uninterrupted session |
| `BrokerRuns.OneClaimPerSession` | macos/tunnel-broker/main.swift:635-740 | over any run a session has at most one claim, legacy and v3 never mix, and a released session never holds again |
| `BrokerRuns.NoticedExitSticks` | macos/tunnel-broker/main.swift:1058-1076 | once the exit of a held session's child is noticed, the recovery flag and that same claim stay until release |
| `BrokerRuns.ReleaseRetriesStayPositive` | macos/tunnel-broker/main.swift:989-1056 | once recorded, a v3 release answers later releases and statuses positively until a later session's tombstone replaces it |
| `BrokerRuns.AcceptedReleaseFences` | macos/tunnel-broker/main.swift:697-717 | an accepted release, even of a tuple never held, fences that tuple |
| `BrokerRuns.FencedHoldIsRefused` | macos/tunnel-broker/main.swift:678-695 | a fenced tuple is never held again |
| `BrokerRuns.ReleaseAcceptedExactlyWhen` | macos/tunnel-broker/main.swift:989-1033 | when exactly a v3 release is accepted |
| `BrokerRuns.RefusedReleaseNeverSucceeds` | macos/tunnel-broker/main.swift:989-1033 | a release refused once its session was started is refused at every later moment with a mismatch or stale error, and changes nothing |
| `BrokerRuns.RefusedForGoodExactlyWhen` | macos/tunnel-broker/main.swift:989-1033 | once its session was started, a release is refused from here on exactly when it is refused now |
| `BrokerRuns.UnstartedReleaseMaySucceed` | macos/tunnel-broker/main.swift:791-833 | a tuple of a generation yet to be given out is not refused for good: with no session active, some continuation starts its session and accepts its release |
| `BrokerRuns.ClaimedReleaseIsRefusedExactlyWhen` | macos/tunnel-broker/main.swift:989-1033 | once a tuple was held or its release recorded, its release is refused exactly when the tombstone of a later session has come |
| `BrokerRuns.AcceptanceIsLostExactlyWhen` | macos/tunnel-broker/main.swift:697-717 | an accepted release becomes refused by one section exactly when a later tombstone comes, or when the session nobody had claimed ends or is claimed by another |
| `BrokerRuns.GenerationsAreBelow` | macos/tunnel-broker/main.swift:791-833 | no session, past or present, has a generation that is still to be given out |
| `BrokerRuns.IdleStopMayLeaveAHold` | macos/tunnel-broker/main.swift:835-871 | a run in which a hold comes while the child is being reaped: stop answers idle and the session is still held |
| `TunnelBrokerCoordinators.TunnelBrokerCoordinator.Start` | macos/tunnel-broker/main.swift:791-833 | a session starts exactly beside no other, with a generation left and a child launched; it is unclaimed, under the next generation and the given sidecar, and no session of the run ever had its generation; each failure has its code, and a failed launch uses up its generation |
| `TunnelBrokerCoordinators.TunnelBrokerCoordinator.StopFirst` | macos/tunnel-broker/main.swift:835-855 | stopping goes on exactly for the session's own client and without a hold; nothing changes yet |
| `TunnelBrokerCoordinators.TunnelBrokerCoordinator.FinishReap` | macos/tunnel-broker/main.swift:859-1033 | after reaping, the session that the call saw is forgotten with its release on record, unless it is held or, for the disconnect calls, its client is back; a held session is never touched |
| `TunnelBrokerCoordinators.TunnelBrokerCoordinator.AppGoneFirst` | macos/tunnel-broker/main.swift:885-900 | the client is gone for good; the session is to be reaped exactly when nobody holds it |
| `TunnelBrokerCoordinators.TunnelBrokerCoordinator.LegacyHold` | macos/tunnel-broker/main.swift:913-924 | granted exactly when the session's authority allows it; the lease id then has the authority, and a refusal changes nothing |
| `TunnelBrokerCoordinators.TunnelBrokerCoordinator.LegacyReleaseFirst` | macos/tunnel-broker/main.swift:926-948 | accepted exactly from the lease id that has or had the authority; the child is to be reaped exactly when the client is gone |
| `TunnelBrokerCoordinators.TunnelBrokerCoordinator.HoldV3` | macos/tunnel-broker/main.swift:976-987 | granted exactly to a tuple of the session that nobody else has or had the authority over, with no recovery due; the broker then holds it, and a fenced tuple never gets here |
| `TunnelBrokerCoordinators.TunnelBrokerCoordinator.ReleaseV3First` | macos/tunnel-broker/main.swift:989-1021 | accepted exactly for the tombstone or a session that nobody else has or had; the release is then on record, its tuple fenced, and only its own hold dropped |
| `TunnelBrokerCoordinators.TunnelBrokerCoordinator.StatusV3` | macos/tunnel-broker/main.swift:1035-1056 | positive and held exactly for the held tuple without recovery due, positive and not held exactly for a tuple whose release is on record; each negative answer has its code |
| `TunnelBrokerCoordinators.TunnelBrokerCoordinator.ChildExited` | macos/tunnel-broker/main.swift:1058-1076 | a held session outlives its child with its authority and asks for recovery; an unheld one goes with its release on record |
| `TunnelBrokerCoordinators.TunnelBrokerCoordinator.HeartbeatWatchdogTick` | macos/tunnel-broker/main.swift:776-789 | no authority is taken away, and a silent hold that was heard of asks for recovery |
| `TunnelBrokerCoordinators.TunnelBrokerCoordinator.Stop` | macos/tunnel-broker/main.swift:835-871 | over any interleaving, an idle reply means that the session is gone or that a hold came meanwhile |
| `TunnelBrokerCoordinators.TunnelBrokerCoordinator.AppInvalidated` | macos/tunnel-broker/main.swift:885-911 | over any interleaving, the session never has its client again, and is gone or held once its child was reaped |
| `TunnelBrokerCoordinators.TunnelBrokerCoordinator.Release` | macos/tunnel-broker/main.swift:926-962 | over any interleaving, an accepted legacy release leaves the session released for good, and gone once its disconnected child was reaped |
| `TunnelBrokerCoordinators.TunnelBrokerCoordinator.ReleaseV3` | macos/tunnel-broker/main.swift:989-1033 | over any interleaving, an accepted v3 release leaves its tuple fenced, not held, and its release answered, even if the child could not be reaped; a refused one changes nothing |
| `NetworkPrefixes.MaskKeepsLeadingBits` | src/types/networking-production-v2.ts:332-336 | the mask keeps exactly the leading bits |
| `NetworkPrefixes.NetworkPrefixMeansNoHostBits` | src/types/networking-production-v2.ts:358-362 | a prefix is a network prefix exactly when its address modulo the block size is zero |
| `NetworkPrefixes.PrefixContainsMeansSubset` | src/types/networking-production-v2.ts:364-374 | an allowed network prefix contains another exactly when it covers every address of it |
| `NetworkPrefixes.PrefixesOverlapMeansCommonAddress` | src/types/networking-production-v2.ts:376-381 | two prefixes overlap exactly when some address lies in both |
| `NetworkPrefixes.OverlapTestsAgree` | src/types/networking-production-v2.ts:376-381 | the mask test and the route helper's byte loop decide the same overlap, for all addresses and lengths |
| `NetworkPrefixes.CanonicalTestsAgree` | src/types/networking-production-v2.ts:358-362 | the mask test and the route helper's byte loop decide the same canonical networks |
| `AddressText.CanonicalIPv6` | src/types/networking-production-v2.ts:266-290 | the loop over zero runs prints the text with the first longest run of at least two zero groups shortened (section 4.2 of RFC 5952) |
| `AddressText.ShorteningIsUnique` | src/types/networking-production-v2.ts:266-290 | at most one run of zero groups meets that rule |
| `AddressText.GroupsRoundTrip` | src/types/networking-production-v2.ts:292-330 | parsing the canonical text of any eight groups gives them back |
| `AddressText.ParseIPv6` | src/types/networking-production-v2.ts:292-330 | the parser accepts a text exactly when its groups print as that text |
| `AddressText.IPv6AcceptsOneSpelling` | src/types/networking-production-v2.ts:292-330 | a text is accepted for an address exactly when it is that address's canonical text |
| `AddressText.ParseIPv4` | src/types/networking-production-v2.ts:253-264 | the loop over octets |
| `AddressText.IPv4AcceptsOneSpelling` | src/types/networking-production-v2.ts:253-264 | a text is accepted for an address exactly when it is its plain dotted decimal |
| `AddressText.ParseCanonicalPrefix` | src/types/networking-production-v2.ts:338-356 | the split at the only slash and the choice of family |
| `AddressText.PrefixAcceptsOneSpelling` | src/types/networking-production-v2.ts:338-356 | a text is accepted for a prefix exactly when it is that prefix's one spelling |
| `ProductionProfile.AllowlistIsParsed` | src/types/networking-production-v2.ts:383-388 | the four allowlist literals parse to the ranges used here |
| `ProductionProfile.AllowlistedIsPrivate` | src/types/networking-production-v2.ts:390-392 | an allowlisted prefix holds only addresses of section 3 of RFC 1918 or section 3.1 of RFC 4193 |
| `ProductionProfile.PrivateIsAllowlisted` | src/types/networking-production-v2.ts:383-392 | the converse: a prefix that holds only such addresses is allowlisted |
| `ProductionProfile.ParseHostPrefixes` | src/types/networking-production-v2.ts:394-416 | the loop accepts exactly one or two texts that spell single private addresses of distinct families |
| `ProductionProfile.ParsePrivatePrefixes` | src/types/networking-production-v2.ts:418-447 | the loop accepts exactly the lists that spell prefixes without host bits, of private addresses only, no two with an address in common, within the limits |
| `ProductionProfile.CheckRoutes` | src/types/networking-production-v2.ts:556-572 | the route part of the contract holds exactly when the texts spell such hosts and routes, of the same families, with no host in a route |
| `ProductionProfile.TextLengthOfParts` | src/types/networking-production-v2.ts:418-430 | the length limit counts every text with its length |
| `ProductionProfile.AcceptedRoutesPartition` | src/types/networking-production-v2.ts:556-572 | an address covered by accepted private CIDRs lies in exactly one of them, is private, and is no local tunnel address |
| `ProductionProfile.HelperAcceptsRoutes` | src/types/networking-production-v2.ts:418-447 | the accepted list passes the route helper's count, duplicate, canonical, multicast and disjointness checks |
| `Drafts.Draft.constructor` | crates/clash-verge-draft/src/lib.rs:39-47 | a new cell has the value committed and no draft |
| `Drafts.Draft.DataArc` | crates/clash-verge-draft/src/lib.rs:50-53 | the snapshot shows the committed value, whatever the draft |
| `Drafts.Draft.LatestArc` | crates/clash-verge-draft/src/lib.rs:58-61 | the snapshot shows the draft where there is one, else the committed value |
| `Drafts.Draft.EditDraft` | crates/clash-verge-draft/src/lib.rs:67-77 | the draft becomes the edited latest value; what is committed and what anyone has seen stays |
| `Drafts.Draft.Apply` | crates/clash-verge-draft/src/lib.rs:81-86 | the latest value is committed and there is no draft |
| `Drafts.Draft.Discard` | crates/clash-verge-draft/src/lib.rs:90-93 | the draft goes and the committed value stays |
| `Drafts.Draft.TryAcquire` | crates/clash-verge-draft/src/lib.rs:122-128 | the permit is taken exactly when it is free |
| `Drafts.Draft.ReadCommitted` | crates/clash-verge-draft/src/lib.rs:104-109 | a modify reads the committed value and keeps its allocation |
| `Drafts.Draft.CommitModify` | crates/clash-verge-draft/src/lib.rs:111-118 | a modify whose function came back with a value commits exactly when the committed allocation is the one it kept; otherwise nothing committed changes |
| `Drafts.Draft.DropOriginal` | crates/clash-verge-draft/src/lib.rs:104-110 | the kept reference goes in a move of its own, after a commit, an error or a cancellation |
| `Drafts.Draft.ReturnPermit` | crates/clash-verge-draft/src/lib.rs:24-29 | the permit goes back last, in a move of its own |
| `Drafts.NextKeepsInv` | crates/clash-verge-draft/src/lib.rs:50-147 | every step keeps exact reference counts, one permit, and a draft apart from the committed allocation |
| `Drafts.StepRefinesPlain` | crates/clash-verge-draft/src/lib.rs:50-119 | sharing and copy on write are invisible: every step acts as on two plain values |
| `Drafts.SnapshotNeverChanges` | crates/clash-verge-draft/src/lib.rs:50-77 | under every interleaving a snapshot keeps its allocation and value for as long as it is held |
| `Drafts.SnapshotShows` | crates/clash-verge-draft/src/lib.rs:50-61 | which value each new reference shows, in terms of the plain cell |
| `Drafts.SnapshotKeepsShowing` | crates/clash-verge-draft/src/lib.rs:50-77 | under every interleaving a snapshot goes on showing what was latest, or committed, when it was taken |
| `Drafts.EditsInPlaceExactlyWhen` | crates/clash-verge-draft/src/lib.rs:63-77 | an edit allocates nothing exactly when there is a draft that nobody else can see |
| `Drafts.AtMostOneModify` | crates/clash-verge-draft/src/lib.rs:120-147 | at most one modify permit is live |
| `Drafts.ModifyReplacesWhatItRead` | crates/clash-verge-draft/src/lib.rs:98-119 | a modify with a result succeeds exactly when the allocation it read was committed at every moment since, even though addresses are reused; it replaces that one |
| `TrafficSampler.TrafficDataSampler.constructor` | src/utils/traffic-sampler.ts:27-34 | an empty sampler |
| `TrafficSampler.TrafficDataSampler.AddDataPoint` | src/utils/traffic-sampler.ts:36-72 | the log grows by the point, both buffers stay windows on it, and after each add the raw buffer has at most max(live + 512, 2 live) points and the compressed one max(live + 256, 2 live) |
| `TrafficSampler.TrafficDataSampler.CompressData` | src/utils/traffic-sampler.ts:74-92 | a full queue becomes one mean, so the compressed buffer stays a suffix of the means of consecutive full groups |
| `TrafficSampler.MeansAreSorted` | src/utils/traffic-sampler.ts:74-92 | the means of a time-sorted log are time-sorted |
| `TrafficSampler.CompressionConserves` | src/utils/traffic-sampler.ts:74-92 | compression loses no traffic and mixes no direction: means times samples sum to what the logged points sum to, for up, down and time |
| `TrafficSampler.TrafficDataSampler.GetDataForTimeRange` | src/utils/traffic-sampler.ts:94-134 | with a clock that does not go back and a sorted log, a query within the raw window returns exactly the logged points newer than its cutoff, in order; any longer one is sorted and is exactly the logged points within the raw window and the group means between cutoff, or the compressed window, and the raw window |
| `TrafficSampler.SortedByTimeSorts` | src/utils/traffic-sampler.ts:131-133 | the final sort is a sorted permutation |
| `TrafficSampler.SortedByTimeIsStable` | src/utils/traffic-sampler.ts:131-133 | points of equal time keep their order |
| `TrafficSampler.CutoffParts` | src/utils/traffic-sampler.ts:94-134 | a cutoff parts the points: each is kept once, on the side of its time |
| `TrafficSampler.TrafficDataSampler.Clear` | src/utils/traffic-sampler.ts:148-154 | the log starts anew |
| `ConnectionHistory.MergeConnectionSnapshot` | src/hooks/use-connection-data.ts:148-208 | the loops over map and lists compute the merge for every input, repeated ids included; it shows the payload's totals, and each report in its place with its own id, details and counters, a missing counter being zero, and what they gained on the previous connection of that id |
| `ConnectionHistory.RemovedInOrder` | src/hooks/use-connection-data.ts:192-200 | the removed connections are exactly the unreported ones, each as often and in the order in which they were active |
| `ConnectionHistory.LatestIsLast` | src/hooks/use-connection-data.ts:155-160 | of several previous connections of one id the last counts |
| `ConnectionHistory.MergeKeepsLastExactlyWhen` | src/hooks/use-connection-data.ts:179-200 | a merge keeps the last 500 of history and removals, and stays within 500, exactly when no id is removed twice or everything fits |
| `ConnectionHistory.RepeatedIdOverflows` | src/hooks/use-connection-data.ts:179-200 | a full history and two connections of one id that go together make 501 |
| `ConnectionHistory.OverflowIsReachable` | src/hooks/use-connection-data.ts:148-208 | three snapshots from the start lead there |
| `ConnectionHistory.ConnectionMonitor.Merge` | src/hooks/use-connection-data.ts:148-208 | over any run, as long as no snapshot repeats an id, the closed list is the last 500 removals in order since the last clear |
| `ConnectionHistory.ConnectionMonitor.ClearClosedConnectionData` | src/hooks/use-connection-data.ts:367-374 | the closed list and its history start anew |
| `ConnectionHistory.ShownTrafficTelescopes` | src/hooks/use-connection-data.ts:105-146 | the deltas shown for a continuously reported connection sum to what the last payload reported for it minus what the first one did, up and down |

## Left out

- XPC, secure coding, code signing, audit identity, launchd and Mach services: no state of their own.
- File-system checks and property-list encoding of the record: the store is an atomic cell whose failed write or unlink may have landed.
- Command execution and `netstat` parsing: an inspection is truthful or fails, a route command may fail after taking effect.
- Child processes, pipes and signatures of the broker: a child is running or exited.
- Message duplication: the transport delivers each request at most once, as an XPC reply block does.
- The state field of an error reply that the broker reads after giving up its lock: it is taken from the same section, and the error alone decides what the helper does.
- Real time: heartbeat deadlines are a parameter of the step, and clock readings are parameters of the sampler.
- The v1 and v2 route coordinators and the injected test doubles: production never selects them.
- Crash of the broker itself: its state is in memory only and a lease does not survive it.
- URL, DNS, key and display-name checks of the profile, and its JSON typing: the model starts from lists of strings.
- The waiting order of `acquire_data_modify_permit` and async cancellation inside the edit closure: the permit flag and cancellation of a modify are modelled, fairness is not.
- Point names and `getStats` of the sampler: labels and counts of fields.
- Object identity in `normalizeConnection`: reusing an equal previous object is not told apart from copying it, and metadata, chains, rule and start are one value.
- Floating-point rounding in means and counters: numbers are exact.
- User interface, websocket plumbing, updater, logging, and the Go wrappers.
