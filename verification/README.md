# Tyr: capacity grants, routing and accounting, verified

Tyr is a gateway that limits how much work a replica sends to an LLM provider. A control plane
(Latchflo) grants it capacity for a while; Tyr installs the grants, reports back, and must take the
capacity away again by itself when a grant expires. Replicas publish how much room they have and
forward requests to one another. This project models that part of Tyr in Dafny 4.11 and proves what
holds of it over every run. `dafny verify dfyconfig.toml` checks everything.

## The parts

| files | what they model |
|---|---|
| `limits.dfy`, `pools.dfy` | the limit store (`src/pools.ts`): snapshot validation, the all-or-nothing application to several pools, the provenance map and the admission ring |
| `drain.dfy`, `drain_laws.dfy` | drain targets: when one is set, when published demand retires it, and why neither misses anything |
| `agent_model.dfy` | the grant agent (`src/latchflo.ts`) as a state machine, each async method cut at its awaits |
| `agent_invariant.dfy`, `agent_steps.dfy` | the invariant, and its preservation by every step |
| `agent_theorems.dfy`, `agent_examples.dfy` | the agent's promises over every run, and concrete runs that show where they stop |
| `agent_laws.dfy`, `agent_holdings.dfy`, `agent_targets.dfy` | what the steps do in the fields of grants, limits and clocks: what expires, what a reply decides, where grants come from, and the life of a drain target |
| `desired_state.dfy` | reading a desired-state reply from JSON |
| `agent_batches.dfy`, `agent.dfy` | the class with the agent's fields; every method is proved to take the step of the machine that bears its name |
| `demand.dfy`, `demand_protocol.dfy` | the demand reporter (`src/demand.ts`) and the heartbeat queue around it |
| `stats.dfy`, `routing_capacity.dfy`, `routing_builder.dfy` | published capacity: the validator and the builder of `src/routing.ts` |
| `routing_score.dfy`, `routing_floors.dfy`, `routing_ceilings.dfy`, `routing_choice.dfy`, `router.dfy` | the score, the floors and ceilings it keeps, the choice of a replica, and the router with its peers and probes |
| `progressive.dfy`, `sse.dfy`, `retry_hint.dfy` | streaming accounting: shrinking holds, usage extraction from an event stream, retry hints |
| `wrappers.dfy`, `text.dfy`, `sums.dfy`, `json.dfy`, `admission_policy.dfy` | shared: options, `trim`, sums over maps, JSON fields, class-ID normalisation |

In the agent machine the poll is suspended in one of four phases, and the expiration timer, a
heartbeat reply, a registration or `stop` may come between any two steps. Polls do not overlap, as in
the poll loop (`src/latchflo.ts:1592-1633`). Time, network replies and JSON are inputs of the events.

The agent is the only writer of limits in the machine. The gateway also exposes `control.applyLimits` to
an embedding program (`src/server.ts:169-188`); one that writes limits of its own is outside the runs
considered here. `AgentTheorems.ClosableExactly` says, for a store in any state, when the kill switch
could still close what has expired; for a batch it could not, the code has the branch at
`src/latchflo.ts:1694-1699`.

## What is assumed of the bulkhead library

Its source is not part of this model. Assumed are: its `applyLimits` succeeds exactly when the revision
rises, and its limits are then the new ones (`PoolStore.Pool.BulkheadApplyLimits`); the statistics it
reports add up as the routing validator spells out, with pool totals equal to the sums over classes
(`RoutingBuilder.Accounted`); after a usage report it holds `remainingOutputTokens + safetyMarginTokens`.

## Where the code and its promises part

- The kill switch can fail. A grant whose revision is the last safe integer cannot be closed, because
  the closing revision is not a safe integer: `applyLimits` throws, nothing is closed and readiness is
  not withdrawn. `AgentTheorems.KillSwitchTotal` gives the exact condition, and
  `AgentExamples.LastRevisionStaysOpen` a complete run. The throw leaves a timer's callback
  (`src/latchflo.ts:1651-1654`) and nothing under `src/` catches it there, so the shipped program ends;
  what the machine shows after it, with the pool still open and the agent still ready, is what an
  embedding program sees that handles uncaught exceptions and goes on.
- `resolveGrantAdmissionClasses` turns every mismatch of class keys into an ordinary rejection, as its
  comment says it must (`src/latchflo.ts:804-811`, `AgentTheorems.ClassRefusals`). Two other kinds of grant
  still make `applyLimits` throw and are not even reported as rejected: one that disagrees with the pool
  about having a token budget, and one that omits classes and is too small for the remembered floors
  (`AgentTheorems.PollThrowsExactly`, `AgentExamples.TokenlessGrantThrows`,
  `AgentExamples.FlooredGrantThrows`).
- A held grant is not watched by the timer from the moment it is held until its acknowledgements and the
  publish are over, if nothing was held before: at the first desired state, and after the kill switch
  has closed everything, also in the middle of a commit. Nothing held means no timer
  (`AgentTheorems.TimerNeedsGrant`), a commit begins with the timer as it was
  (`AgentTheorems.CommitBeginsUnscheduled`), and from then on nothing sets it and nothing held is let go
  until the commit's publish (`AgentTheorems.CommitStaysUnwatched`); conversely a grant goes unwatched in no
  other way but a stop or a throw (`AgentTheorems.UnwatchedSinceNothingHeld`). The events that set and lose
  the timer are `AgentTheorems.TimerSetExactly` and `AgentTheorems.TimerLostExactly`; a first commit is
  `AgentExamples.FirstCommitIsUnwatched`.
- The desired-state parser compares routing members by their identifiers as they stand, the router by
  their trimmed ones. Members that differ only by white space pass the parser and make the router throw,
  which ends the poll before any grant is applied (`Router.ParsedTopologyThrowsExactly`,
  `Router.TwinsSlipThrough`; from the JSON on, `DesiredStateParser.TwinsAreRead`).
- Early-released tokens are what the hold has come down by, counted from the larger of the reservation
  and the first hold; so they equal the reservation minus the hold only when the first hold does not
  exceed the reservation (`Progressive.ReleasesAddUp`). A margin larger than the reservation makes it exceed
  (`Progressive.MarginAboveReservation`).
- A progressive hold is at least max(margin, maximum output - reported output) after a report exactly
  when the report does not call for a higher floor than the one last applied
  (`Progressive.HoldIsEnoughExactly`). Cumulative usage never does; usage that falls may
  (`Progressive.FallingUsageIsUnderheld`).
- Retry hints stay within the configured bounds exactly when rounding does not move the bounds outward
  (`RetryHint.HintsWithinBoundsExactly`); a floor of 0.4 ms gives a hint of 0
  (`RetryHint.FloorRoundsOutward`). The configuration file reads only integer bounds
  (`src/config.ts:1573-1574`), which never move, so only an embedding program can set others. The comment at `src/retry-hint.ts:214-217` promises that a caller
  who obeys `Retry-After` never arrives before capacity exists. Measured by the estimator's own wait, that
  holds exactly when the wait was neither cut off at the ceiling nor rounded down to whole seconds
  (`RetryHint.HeaderCoversWaitExactly`; one failing input for each cause:
  `RetryHint.CutOffComesEarly`, `RetryHint.RoundingComesEarly`).
- Demand is reported exactly once, as seen by the agent, as long as no counter falls. A counter that falls
  between two accepted captures counts as restarted and is reported afresh, so what was reported exceeds
  it by what it had reached before each fall (`DemandProtocol.ExactlyOnce`, `DemandProtocol.RunConserves`).
  A heartbeat that was accepted but whose answer was lost counts as failed here, and its demand is sent
  again.
- A replica's own numbers keep the pool's token budget (`RoutingCeilings.AdmissionFits`). Of a snapshot
  from a peer the published `highAvailable` is trusted: the validator does not compare it with the tokens
  in flight (`src/routing.ts:582`, `RoutingCeilings.PublishedTokensAreTrusted`). If `highAvailable` is zero or
  fits beside the tokens in flight, every admissible request keeps the budget
  (`RoutingCeilings.PublishedTokensKept`). Without classes, while there is a slot left, it is kept exactly
  then (`RoutingCeilings.PublishedTokensKeptUnclassed`); with classes exactly when the largest admissible
  request of each class keeps it (`RoutingCeilings.PublishedTokensKeptExactly`). What a replica builds from its
  own numbers always meets the condition (`RoutingCeilings.BuiltTokensAddUp`), so only a publisher that
  computes its snapshot otherwise can break it.

## Model

| member | source | states |
|---|---|---|
| `Limits.CheckClassTable` | src/pools.ts:1157-1238 | the loop over a class table accepts it exactly when every class is well formed and the floors of all classes fit the pool |
| `Limits.ValidateLimitSnapshot` | src/pools.ts:1097-1257 | a new snapshot passes exactly when it is well formed and agrees with the live one about having a token budget, having classes, and their keys; and it is then returned unchanged |
| `Limits.ParseLimits` | src/latchflo.ts:316-490 | once its fields and its class table have been read, a grant's limits are let through exactly when well formed with 1 to 64 classes, if any |
| `Limits.WellFormedExactly` | src/pools.ts:1097-1257 | limits are well formed exactly when their numbers are safe, the reserve is part of the budget, and all classes may use their floors at once, within their ceilings, the slots and the budget |
| `Limits.ClosedAcceptable` | src/latchflo.ts:849-870 | the closing snapshot of a well-formed pool always passes validation, except for an unsafe revision or disagreement about the token budget |
| `Limits.ClosedHoldsNothing` | src/latchflo.ts:1658-1695 | a closing snapshot leaves no slot, no queue, no budget and no floor |
| `Limits.ClosedKeepsCeilings` | src/latchflo.ts:849-870 | closing keeps every class ceiling, and every floor there was, at zero |
| `PoolStore.Pool.BulkheadApplyLimits` | src/pools.ts:1068-1079 | the assumption about the bulkhead: success exactly on a rising revision |
| `PoolStore.Pool.RetainProvenance` | src/pools.ts:737-746 | the provenance map becomes the newest 64 of everything ever retained |
| `PoolStore.Pool.ApplyLimits` | src/pools.ts:1068-1079 | throws exactly on refused provenance, applies exactly on a rising revision, and retains provenance exactly when it applied |
| `PoolStore.Pool.OnAdmit` | src/pools.ts:748-813 | an admission under another revision only counts a failure; any other appends one record with the next sequence number, all that was reported of the admission, and the grant of exactly that revision |
| `PoolStore.Pool.Provenance` | src/pools.ts:1066-1067 | finds the retained grant of a revision |
| `PoolStore.Pool.RingIsExact` | src/pools.ts:748-813 | in every reachable state the ring holds at most 512 records, numbered exactly dropped + 1 to next - 1, full once anything was dropped, and no record carries the grant of another revision |
| `PoolStore.Pool.LedgerIsExact` | src/pools.ts:737-746 | a retained grant is still in the map exactly when fewer than 64 newer ones have been retained |
| `PoolStore.NormalizeProvenanceExactly` | src/pools.ts:563-609 | provenance is kept exactly when, once trimmed, every field is in order and it names the revision being applied; what is in order is kept as it is |
| `PoolStore.PreflightAccepts` | src/pools.ts:1301-1352 | preflight lets a batch through exactly when it names known pools once each with installable snapshots |
| `PoolStore.PreflightStops` | src/pools.ts:1301-1352 | a refused batch gets the refusal of its first bad update |
| `PoolStore.InstalledExactly` | src/pools.ts:1353-1374 | an accepted batch sets exactly the pools it names, each to its own snapshot, and no other pool |
| `PoolStore.InstalledAdvances` | src/pools.ts:1301-1374 | an accepted batch raises revisions, keeps class keys and token-budget presence, and leaves floors within capacity |
| `PoolStore.RunKeepsShape` | src/pools.ts:1301-1374 | over any sequence of batches, accepted or not, the same holds from the first to the last |
| `PoolStore.Pools.ApplyLimits` | src/pools.ts:1301-1374 | a transaction: refused or throwing it changes no pool, applied it installs the whole batch; the throw for a pool that became stale half-way is never reached |
| `PoolStore.Pools.PreflightAll` | src/pools.ts:1301-1352 | the preflight loop answers for the first bad update and changes nothing |
| `PoolStore.Pools.Commit` | src/pools.ts:1353-1374 | the second loop installs every update and reports each pool's limits before and after |
| `Drain.AdmissionClassDrainEvidenceTarget` | src/latchflo.ts:699-772 | the loop sets a class target exactly when a ceiling fell or a floor rose, with the ceilings and the restored floors |
| `Drain.DrainEvidenceTarget` | src/latchflo.ts:774-804 | a target is set exactly when the pool or its classes must drain |
| `Drain.PublishedClassTargetReady` | src/latchflo.ts:1195-1259 | the loop over published classes decides readiness of the class target |
| `Drain.PublishedDrainTargetReady` | src/latchflo.ts:1261-1280 | the same for the whole target |
| `Drain.TargetOfIsSound` | src/latchflo.ts:699-804 | a target made from an acceptable grant knows every class and shared pots that match its floors |
| `Drain.PublishedIsDesired` | src/latchflo.ts:1195-1259 | when the check passes, the published classes are exactly the desired ones (a counting argument: as many, and all known) |
| `Drain.RetirementIsSound` | src/latchflo.ts:1195-1280 | a target is retired only when the sum over classes of max(in use, restored floor) fits the pool, for slots and for tokens, and every class is within its new ceiling |
| `DrainLaws.TargetSetExactly` | src/latchflo.ts:725-799 | a target is set exactly when slots or token budget shrink, or some class has a higher floor or a lower or new ceiling |
| `DrainLaws.PotsAskedExactly` | src/latchflo.ts:725-770 | it asks for the shared slots (tokens) exactly when some class has a higher slot (token) floor, and for exactly what the floors leave of the envelope |
| `DrainLaws.NoTargetNoSlotsToDrain` | src/latchflo.ts:699-804 | without a target, whatever was within the old slots, floors and ceilings is within the new ones |
| `DrainLaws.NoTargetNoTokensToDrain` | src/latchflo.ts:699-804 | the same for tokens |
| `DrainLaws.NoTargetNothingToDrain` | src/latchflo.ts:774-804 | and for pools without classes |
| `DrainLaws.PublishedClass` | src/demand.ts:181-262 | a capture publishes every class once, field by field as the statistics have it |
| `DrainLaws.MetMeansFits` | src/latchflo.ts:1195-1280 | a target that captured demand meets is met by the statistics themselves: the work left, floors included, is within the envelope and under the new ceilings |
| `DrainLaws.MetMeansInstalled` | src/latchflo.ts:1195-1259 | a snapshot taken under other class floors or ceilings does not meet the target |
| `DrainLaws.MetExactlyWhenFits` | src/latchflo.ts:1195-1280 | and once the granted classes are live, demand meets the target exactly when the statistics do |
| `Agent.ParseDesiredState` | src/latchflo.ts:564-655 | the parser's checks on a reply that has been read: exactly the states whose grants are for this instance, its pools, one each, of one epoch, with well-formed limits |
| `DesiredStateParser.ParseReply` | src/latchflo.ts:564-655 | the JSON itself is accepted exactly when it says such a state, with usable intervals and timestamps and a topology that can be read, if any; and it is read as that state |
| `DesiredStateParser.ParseAdmissionClasses` | src/latchflo.ts:330-423 | a class table is read exactly when every entry is one class under its normalised identifier and no two normalise alike |
| `DesiredStateParser.ClassIdsAreNormal` | src/latchflo.ts:343-351 | the identifiers of a table that was read are normalised |
| `DesiredStateParser.ReadClassExactly` | src/latchflo.ts:352-418 | a class is read from an object with no other property, each limit from the property of that name |
| `AdmissionPolicy.NormalizedExactly` | src/admission-policy.ts:45-67 | an identifier is let through exactly when, once trimmed, it has 1 to 256 characters and is not reserved |
| `DesiredStateParser.ParseRoutingTopology` | src/latchflo.ts:532-562 | a topology is read exactly when every member has an identifier and a usable endpoint, and no identifier occurs twice as it stands |
| `DesiredStateParser.ReadTopologyIsParsed` | src/latchflo.ts:507-562 | what was read satisfies what the router results below require of a parsed topology |
| `DesiredStateParser.ReadGrants` | src/latchflo.ts:594-645 | the grants are read in their order, and one that cannot be read refuses them all |
| `Agent.PlanBatch` | src/latchflo.ts:1402-1446 | the loop over the grants stops at the first rejection, and otherwise builds the batch and its drain targets |
| `Agent.Decide` | src/latchflo.ts:1405-1434 | what becomes of one grant: rejected, kept, or installed with a resolved class table |
| `Agent.PruneTargets` | src/latchflo.ts:1465-1469 | targets survive only while their revision is still desired |
| `Agent.CommitEvidence` | src/latchflo.ts:1282-1298 | the loop retires exactly the targets whose published demand is ready |
| `Agent.ListExpired` | src/latchflo.ts:1658-1662 | lists exactly the expired grants, each once |
| `Agent.BuildKillUpdates` | src/latchflo.ts:1668-1692 | one closing update for each of them |
| `Agent.RememberChanges` | src/latchflo.ts:1457-1462 | every pool just changed is remembered with its new class table |
| `Agent.RemoveExpired` | src/latchflo.ts:1701-1704 | removes exactly the expired grants and their targets |
| `Agent.LatchfloTyrAgent.constructor` | src/latchflo.ts:943-973 | starts in the machine's initial state, which satisfies the invariant |
| `Agent.LatchfloTyrAgent.HasCompleteUnexpiredGrantSet` | src/latchflo.ts:1713-1719 | every managed pool has a grant unexpired on both clocks |
| `Agent.LatchfloTyrAgent.ScheduleExpiration` | src/latchflo.ts:1644-1656 | the timer is set exactly when a grant is held |
| `Agent.LatchfloTyrAgent.OnPollReply` | src/latchflo.ts:1339-1375 | takes the machine's poll step and keeps the invariant |
| `Agent.LatchfloTyrAgent.Fence` | src/latchflo.ts:1353-1370 | the clock is taken from every reply, the epoch only from one that is not older |
| `Agent.LatchfloTyrAgent.ApplyDesiredState` | src/latchflo.ts:1377-1483 | the synchronous part up to the first await is the machine's step |
| `Agent.LatchfloTyrAgent.Install` | src/latchflo.ts:1448-1456 | `applyLimits` applies the batch or throws; the refusal that follows it in the code is never taken |
| `Agent.LatchfloTyrAgent.OnAckReply` | src/latchflo.ts:1471-1479 | a delivered acknowledgement arms its target and the next grant is held; the machine's step |
| `Agent.LatchfloTyrAgent.OnRejectionAcked` | src/latchflo.ts:1393-1434 | readiness is rechecked or withdrawn; the machine's step |
| `Agent.LatchfloTyrAgent.OnPublished` | src/latchflo.ts:1307-1337 | evidence is committed, readiness set and the timer set; the machine's step |
| `Agent.LatchfloTyrAgent.OnHeartbeatReply` | src/latchflo.ts:1539-1581 | an ordinary heartbeat retires targets and nothing else |
| `Agent.LatchfloTyrAgent.FailClosedExpiredGrants` | src/latchflo.ts:1658-1711 | the timer's method is the machine's timer step |
| `Agent.LatchfloTyrAgent.ClosePools` | src/latchflo.ts:1668-1700 | the batch is applied or throws: it is never stale, duplicate or unknown |
| `Agent.LatchfloTyrAgent.OnPollFailed` | src/latchflo.ts:1592-1598 | a failed poll only rechecks readiness |
| `Agent.LatchfloTyrAgent.OnRegistered` | src/latchflo.ts:1078-1093 | a registration sets the epoch, which may drop |
| `Agent.LatchfloTyrAgent.Stop` | src/latchflo.ts:997-1007 | targets, timer and readiness are withdrawn, limits are not |
| `AgentBatches.PollBatch` | src/latchflo.ts:1402-1449 | the batch a poll builds never names an unknown, repeated or stale pool |
| `AgentBatches.KillBatch` | src/latchflo.ts:1658-1700 | in whatever order the expired grants are listed, their batch closes exactly their pools, or preflight throws |
| `AgentSteps.StepInv` | src/latchflo.ts:1339-1719 | every step of the machine keeps the invariant |
| `AgentSteps.RunInv` | src/latchflo.ts:1339-1719 | the invariant holds after every sequence of events |
| `AgentTheorems.KillSwitchTotal` | src/latchflo.ts:1658-1711 | in every reachable state with the timer set, between acknowledgements too, and with the agent the only writer of limits, the closing batch is accepted exactly when no expired grant has the last safe revision; otherwise nothing changes and the throw is left to the process |
| `AgentTheorems.KillSwitchCloses` | src/latchflo.ts:1658-1711 | when it fires, expired pools keep no capacity and no floor, at one revision above their grant; every other pool keeps limits, grant and target |
| `AgentTheorems.ClosableExactly` | src/latchflo.ts:1658-1699 | for limits written by anyone: the expired grants can be closed exactly when each still has its pool, with no newer limits, the same view of the token budget, and a safe revision to follow |
| `AgentTheorems.TimerIsSet` | src/latchflo.ts:1644-1656 | between polls the timer is set whenever a grant is held, unless it threw or the agent was stopped; for the awaits inside a commit see the rows below |
| `AgentTheorems.TimerLostExactly` | src/latchflo.ts:1644-1711 | a set timer is lost, at any await, exactly by a stop, by firing and throwing or closing every grant held, or by being set anew with nothing held |
| `AgentTheorems.TimerSetExactly` | src/latchflo.ts:1644-1656 | an unset timer is set, at any await, exactly by an event that sets it anew while a grant is held |
| `AgentTheorems.UnwatchedSinceNothingHeld` | src/latchflo.ts:1471-1482 | over any run, a timer that is not set, though neither stopped nor thrown, has not been set since a moment at which nothing was held |
| `AgentTheorems.TimerNeedsGrant` | src/latchflo.ts:1644-1656 | over any run the timer is set only while a grant is held |
| `AgentTheorems.CommitBeginsUnscheduled` | src/latchflo.ts:1377-1474 | the poll reply that begins a commit leaves the timer as it was |
| `AgentTheorems.CommitStaysUnwatched` | src/latchflo.ts:1471-1482 | over any run, from anywhere in a commit at which the timer is not set, it stays unset and what is held stays held until the publish that ends the commit |
| `AgentTheorems.StepAdvances` | src/latchflo.ts:1339-1719 | no step lowers a revision, changes a pool's shape, or changes limits without raising the revision |
| `AgentTheorems.RunAdvances` | src/latchflo.ts:1339-1719 | the same from any state of a run to any later one |
| `AgentTheorems.InstallsAreOrdered` | src/latchflo.ts:1361-1483 | installed revisions of a pool strictly increase, every installed grant was unexpired, and between registrations epochs never go down |
| `AgentTheorems.NoResurrection` | src/latchflo.ts:1377-1483 | a closed pool has capacity later only through a grant installed in between, unexpired then, at a strictly higher revision than the closed one |
| `AgentTheorems.ReadinessIsSound` | src/latchflo.ts:1471-1482 | whenever a step turns the agent ready, or looks again and leaves it ready, every managed pool holds a grant unexpired on both clocks, and its live revision is that grant's |
| `AgentTheorems.ReadyMeansMatched` | src/latchflo.ts:1471-1482 | while it is ready, every managed pool is live at a grant held or about to be held |
| `AgentTheorems.FallbackIsLastTable` | src/latchflo.ts:1457-1462 | a pool is remembered with a class table exactly when it has classes, with the same keys; and the table is that of the last grant installed, or the initial one, after any number of expirations |
| `AgentTheorems.ClassRefusals` | src/latchflo.ts:812-847 | so a newer grant is refused over classes exactly when its keys differ from the live ones, and one without classes gets that last table back |
| `AgentTheorems.PollThrowsExactly` | src/latchflo.ts:1448-1449 | a poll with nothing to reject throws exactly when some grant to be installed does not fit its pool |
| `AgentTheorems.FitsExactly` | src/latchflo.ts:872-896 | one grant fits exactly when it agrees about the token budget and leaves room for the floors it would reinstall |
| `AgentTheorems.RetiredTargetsAreSound` | src/latchflo.ts:1282-1337 | any target that an ordinary heartbeat or the one ending a commit retires, in any reachable state, was met: pool and tokens within the target, and for accounted classes their claims within the pool and each under its ceilings |
| `AgentLaws.TimerClosesExactly` | src/latchflo.ts:1658-1711 | when the timer fires and does not throw, a grant is let go and its pool closed exactly when it is past its end by the local or the estimated controller clock; everything else stays |
| `AgentLaws.TimerThrowsExactly` | src/latchflo.ts:1658-1711 | it throws exactly when such a grant has the last safe revision, and then changes only the timer |
| `AgentLaws.ReadinessExactly` | src/latchflo.ts:1384-1482 | readiness after any step: set exactly when every managed pool holds a grant that has not ended on either clock, withdrawn by any other rejection, a stop or a kill switch that closes something |
| `AgentLaws.DecisionsExactly` | src/latchflo.ts:683-697 | what becomes of one grant, in its fields and those of the live limits; at an equal revision it is kept exactly when slots, queue, budget and any granted classes are the live ones |
| `AgentLaws.FirstRejectIsFirst` | src/latchflo.ts:1402-1434 | a desired state is rejected with the reason of its first rejected grant |
| `AgentLaws.ReplyRejectsExactly` | src/latchflo.ts:1390-1434 | a complete reply is rejected as expired exactly when one of its grants has ended by the local clock or by the reply's own time, and otherwise exactly for the first grant refused |
| `AgentLaws.OnlyExpiredIsRechecked` | src/latchflo.ts:1393-1434 | over any run, the grants are looked at again exactly after a rejection for an expired grant |
| `AgentLaws.CommittedLimits` | src/latchflo.ts:1402-1449 | once a desired state is applied, each pool has the revision, slots, queue, budget and any classes of its grant |
| `AgentLaws.UngrantedKeep` | src/latchflo.ts:1402-1449 | and a pool that is not granted keeps its limits |
| `AgentLaws.RepeatIsKept` | src/latchflo.ts:1418-1424 | so the same grants, brought again, are all kept |
| `AgentLaws.RepeatedPollChangesNothing` | src/latchflo.ts:1377-1483 | over any run, while no revision has moved, a poll that brings the same grants changes no limits, no history and no readiness, and asks for no drain |
| `AgentLaws.UpdatesNameGrants` | src/latchflo.ts:872-896 | the update that installs a grant and the one that closes its pool are both recorded under the grant |
| `AgentLaws.InstallsRecordGrants` | src/latchflo.ts:1402-1449 | every installation in the history is that of a grant of its reply, with the limits then live, its end, and the later of the reply's two times |
| `AgentLaws.FenceExactly` | src/latchflo.ts:1339-1370 | over every event: the clock is taken from every reply let through, the epoch too unless that would lower it, and only a registration may lower it |
| `AgentLaws.HaltedExactly` | src/latchflo.ts:1644-1711 | the timer is given up exactly by a stop or a throw, until something sets it anew |
| `AgentHoldings.GrantsAreBrought` | src/latchflo.ts:1471-1479 | over any run, every grant held or about to be was brought by an earlier reply that was let through |
| `AgentHoldings.HeldGrants` | src/latchflo.ts:564-655 | a held grant is for this instance and its pool, and what is live there is what it says, at its revision |
| `AgentHoldings.GrantLife` | src/latchflo.ts:1471-1479 | what every step makes of the grant held for a pool |
| `AgentHoldings.AcksHoldAll` | src/latchflo.ts:1471-1479 | once every acknowledgement of a commit is over, delivered or not, all its grants are held |
| `AgentTargets.ShrinksExactly` | src/latchflo.ts:1435-1441 | a commit asks to drain exactly what each newly installed grant takes away |
| `AgentTargets.TargetLife` | src/latchflo.ts:1282-1298 | a target is set exactly by a delivered acknowledgement and stays until it is replaced, met, no longer asked for, closed by the kill switch or the agent stopped, each of which ends it |
| `AgentTargets.LastPublished` | src/latchflo.ts:1282-1298 | what counts for a pool is the last snapshot published for it |
| `AgentTargets.RetiredTargetsFit` | src/latchflo.ts:1282-1337 | over any run: a target retired on what the reporter captured is one the statistics are within |
| `AgentExamples.LastRevisionStaysOpen` | src/latchflo.ts:1658-1711 | a run in which the timer's callback throws; where the process survives that, the expired grant keeps its slot and the agent stays ready |
| `AgentExamples.EarlierRevisionCloses` | src/latchflo.ts:1658-1711 | the same run at any earlier revision ends with the pool closed, one revision up |
| `AgentExamples.FirstCommitIsUnwatched` | src/latchflo.ts:1471-1482 | while the first grant is being acknowledged it is held and the timer is not set |
| `AgentExamples.TokenlessGrantThrows` | src/latchflo.ts:1448-1449 | a grant that passes every check and makes `applyLimits` throw |
| `AgentExamples.FlooredGrantThrows` | src/latchflo.ts:1448-1449 | another: it omits classes, and is too small for the floors it would bring back |
| `Demand.TyrDemandReporter.Capture` | src/demand.ts:147-285 | one snapshot per managed pool with the increase of each counter since it was last accepted; nothing accepted changes |
| `Demand.TyrDemandReporter.CaptureClasses` | src/demand.ts:181-262 | one snapshot per class, likewise |
| `Demand.TyrDemandReporter.Commit` | src/demand.ts:287-308 | the last capture, if any, becomes what has been accepted |
| `Demand.RequestTimes` | src/demand.ts:147-285 | a pool's or class's last request is dated by the capture that saw one, and the checkpoints keep what was published |
| `DemandProtocol.CapturedCounts` | src/demand.ts:75-104 | a capture records exactly the event counts of every managed pool and of the classes it has |
| `DemandProtocol.ReportIsDelta` | src/demand.ts:106-108 | a report carries, for every pool and class counter, exactly the increase over the accepted checkpoint |
| `DemandProtocol.RunConserves` | src/latchflo.ts:1118-1146 | over any run of queued heartbeats, whichever fail, what was reported adds up to the counter at the last accepted capture plus what it had reached before each restart |
| `DemandProtocol.ExactlyOnce` | src/latchflo.ts:1118-1146 | the sum of the reports whose acceptance the agent saw equals the last accepted counter exactly when the counter never fell between accepted captures |
| `DemandProtocol.OverlapMiscountsExactly` | src/latchflo.ts:1118-1127 | the protocol without the queue: after two overlapping heartbeats, the first accepted, reports and counter still agree exactly when nothing happened between the captures (second failed) or before the first (second accepted) |
| `DemandProtocol.OverlapLosesDemand` | src/latchflo.ts:1118-1127 | two such runs in numbers: with three admissions, one is reported if the second heartbeat fails and four if it is accepted |
| `RoutingCapacity.ValidateQuota` | src/routing.ts:646-819 | slots or tokens of one class are accepted exactly when they satisfy their equations |
| `RoutingCapacity.ValidateClasses` | src/routing.ts:614-850 | a class table is accepted exactly when every entry is one class, no two normalise alike and every class is in order; with its four totals |
| `RoutingCapacity.ValidateShared` | src/routing.ts:851-988 | the shared pot is accepted exactly when it is what the floors leave; under schema 1 and 2 it is the whole pool |
| `RoutingCapacity.ValidatePoolCapacity` | src/routing.ts:526-1008 | a raw value is accepted as a snapshot exactly when it says that snapshot and the snapshot satisfies every equation of schema 3, whatever schema it came under |
| `RoutingBuilder.BuildPoolCapacity` | src/routing.ts:193-279 | the builder's loop computes the published snapshot |
| `RoutingBuilder.BuiltOk` | src/routing.ts:193-279 | statistics that add up are published as a snapshot that satisfies every equation |
| `RoutingBuilder.BuiltPublishes` | src/routing.ts:193-279 | every field of a published pool and class is the statistic it stands for |
| `RoutingBuilder.EncodedReads` | src/routing.ts:526-1008 | the JSON of such a snapshot reads back as itself, whatever the order of its classes |
| `RoutingBuilder.PublishAndRead` | src/routing.ts:193-279 | what one replica builds, another's validator returns unchanged |
| `RoutingBuilder.LegacyLift` | src/routing.ts:970-988 | a snapshot accepted under schema 1 or 2 is a valid schema 3 snapshot with no floors and everything shared |
| `RoutingScore.ScoreCapacityCandidate` | src/routing.ts:345-482 | the scorer computes the six headrooms, the verdict and the score |
| `RoutingScore.ScoreIsVerdict` | src/routing.ts:407-482 | for a consistent snapshot a candidate is admissible exactly when its score is not negative, is otherwise scored -1, and always scores below 1 |
| `RoutingScore.ScoreIsScarcestShare` | src/routing.ts:429-482 | the score of an admissible candidate is at most the share left of the pool, of its tokens, of the class ceilings, and of the shared pot when the request borrows |
| `RoutingScore.ScoreIsOneShare` | src/routing.ts:429-482 | and it is exactly one of these shares |
| `RoutingScore.VerdictExactly` | src/routing.ts:345-427 | in the fields of a consistent snapshot: a request is admissible exactly when the pool is open and enforces its limits, has a slot and the tokens for the priority, and the request's class is known and has room under its ceilings and, for what its floor does not cover, in the shared pot |
| `RoutingFloors.SlotsFit` | src/routing.ts:376-427 | an admissible request is covered by its class's own slot floor or fits beside every floor |
| `RoutingFloors.TokensFit` | src/routing.ts:386-427 | the same for the part of its tokens beyond its own floor, at either priority |
| `RoutingFloors.FloorsProtected` | src/routing.ts:345-427 | over any sequence of admissible admissions and of releases, the sum of max(in use, floor) stays within the larger of its start and the capacity, for slots and tokens |
| `RoutingFloors.FloorIsUsable` | src/routing.ts:345-427 | while floors are honoured, a request within its class's unused floor is admissible: always at high priority, at normal priority exactly when the high-priority reserve allows it |
| `RoutingFloors.FloorsAreGuaranteed` | src/routing.ts:345-427 | so from an idle start, whatever the other classes do, the same holds after any run |
| `RoutingCeilings.AdmissionFits` | src/routing.ts:345-427 | on a replica's own numbers, with classes or without and at either priority, an admissible request fits the slots and the token budget |
| `RoutingCeilings.AdmissionFitsClass` | src/routing.ts:345-427 | and the ceilings of its class |
| `RoutingCeilings.PoolCeilingsKept` | src/routing.ts:345-427 | over any sequence of admissible admissions and of releases, slots and tokens in use stay within the larger of their start and the pool's limits |
| `RoutingCeilings.ClassRunIsPoolRun` | src/routing.ts:345-427 | the runs by class considered for the floors are such sequences |
| `RoutingCeilings.ClassCeilingsKept` | src/routing.ts:345-427 | over those runs each class stays within the larger of its start and its ceilings |
| `RoutingCeilings.PublishedCeilingsKept` | src/routing.ts:345-427 | on a validated snapshot: slots and class ceilings are kept, and no request takes more tokens than are published as available |
| `RoutingCeilings.PublishedTokensKept` | src/routing.ts:345-427 | on a validated snapshot whose `highAvailable` is zero or fits beside the tokens in flight, an admissible request fits the token budget, with classes or without and at either priority |
| `RoutingCeilings.MostTokensIsMost` | src/routing.ts:386-427 | the most tokens a class can be admitted with: no admissible request has more, and one at high priority has as many |
| `RoutingCeilings.PublishedTokensKeptExactly` | src/routing.ts:345-427 | a validated snapshot keeps its token budget for all admissible requests exactly when it keeps it for the largest of every class |
| `RoutingCeilings.PublishedTokensKeptUnclassed` | src/routing.ts:345-427 | without classes and with a slot left, exactly when `highAvailable` is zero or fits beside the tokens in flight |
| `RoutingCeilings.BuiltTokensAddUp` | src/routing.ts:255-279 | what the builder makes of statistics that add up always meets that condition |
| `RoutingCeilings.PublishedTokensAreTrusted` | src/routing.ts:582 | a validated snapshot that does not: a full pool that would admit a full budget again |
| `RoutingFloors.AnAdmission` | src/routing.ts:345-427 | a concrete pool in which all of this happens: from idle, a request within the floor is admitted |
| `RoutingChoice.ComparatorIsStrictTotalOrder` | src/routing.ts:484-509 | of two candidates with distinct identifiers exactly one comes first, and coming first is transitive |
| `RoutingChoice.ChooseCapacityCandidate` | src/routing.ts:511-517 | there is a choice exactly when something is admissible, and it precedes every other admissible candidate |
| `RoutingChoice.ChoiceIgnoresOrder` | src/routing.ts:511-517 | the choice does not depend on the order of the list |
| `RoutingChoice.BestIsOptimal` | src/routing.ts:484-517 | it has the highest score; on ties the most class tokens, then class slots, tokens and slots to spare; and is local on a full tie |
| `Router.ValidateSnapshot` | src/routing.ts:1010-1064 | a probe's JSON is accepted exactly when it is about the expected instance and every pool in it is accepted |
| `Router.BuildCapacitySnapshot` | src/routing.ts:281-298 | the loop builds the snapshot of every pool |
| `Router.PublishAndReadAll` | src/routing.ts:281-298 | the whole snapshot one replica publishes is read unchanged by another that expects it, exactly when no pool has a blank name |
| `Router.DeclaredExactly` | src/routing.ts:1180-1204 | a topology's loop succeeds exactly when no identifier is blank, no remote one comes back once trimmed, and every remote URL is well formed |
| `Router.DeclaredIsAdvertised` | src/routing.ts:1180-1204 | what it declares is what was advertised, and never the router itself |
| `Router.CapacityAwareRouter.constructor` | src/routing.ts:1088-1148 | starts with the configured peers, each at its configured URL, and no snapshot |
| `Router.CapacityAwareRouter.ApplyTopology` | src/routing.ts:1167-1210 | throws or ignores with nothing changed; applied, the revision rises, a peer whose URL is unchanged keeps what is known, any other starts empty, and replaced objects are gone for good; in every state between, the peers are those of the last topology applied, or of the configuration, at the URLs it gives |
| `Router.CapacityAwareRouter.StartRefresh` | src/routing.ts:1277-1283 | one probe for each object now in the map, unless a refresh is under way |
| `Router.CapacityAwareRouter.OnProbeReply` | src/routing.ts:1284-1307 | a reply for an object no longer in the map leaves the routing table as it is; any other replaces exactly what was known of its own peer, if the JSON is accepted |
| `Router.CapacityAwareRouter.Select` | src/routing.ts:1317-1420 | the best of the local pool and the eligible peers; a remote route goes to a peer at the URL that the last topology applied, or the configuration, gives it, on a snapshot fetched from that URL and no older than allowed, and never to itself |
| `Router.EligibleExactly` | src/routing.ts:1353-1389 | a peer takes part exactly when it says it is ready, on a recent snapshot that has the pool under the same contract, in schema 3 if there are floors here |
| `Router.ParsedTopologyThrowsExactly` | src/latchflo.ts:532-562 | a parsed topology makes the router throw exactly when two remote members differ only by white space |
| `Router.TwinsSlipThrough` | src/latchflo.ts:545-556 | such a topology passes the parser |
| `DesiredStateParser.TwinsAreRead` | src/latchflo.ts:532-562 | and so is the JSON it is read from, down to the router's refusal |
| `Progressive.ProgressiveUsageReconciler.ReportUsage` | src/progressive-reconciliation.ts:50-80 | the closure's report, with the counters around it, is one step of the reference machine |
| `Progressive.HoldIsOneWanted` | src/progressive-reconciliation.ts:54-71 | the hold is what some report up to now called for |
| `Progressive.HoldIsTight` | src/progressive-reconciliation.ts:54-71 | it never rises and stays less than one step above max(margin, maximum output - reported output) |
| `Progressive.HoldIsEnough` | src/progressive-reconciliation.ts:54-71 | for cumulative usage it is never below that value |
| `Progressive.HoldIsEnoughExactly` | src/progressive-reconciliation.ts:54-71 | after any report the hold is at least that value exactly when nothing was applied before or the report calls for no higher floor than the one last applied |
| `Progressive.FallingUsageIsUnderheld` | src/progressive-reconciliation.ts:54-71 | two inputs: outputs of 50 and then 0 leave the hold too small; outputs of 50, 55 and then 52 do not |
| `Progressive.UpdatesAreFew` | src/pools.ts:941-948 | reports are updates plus coalesced ones, and each update after the first moves the floor by a whole step |
| `Progressive.UpdateBound` | src/progressive-reconciliation.ts:54-71 | at most 1 + max(0, maximum output - margin) / step updates |
| `Progressive.WithoutReservation` | src/progressive-reconciliation.ts:50-80 | without a reservation the hold is what the bulkhead last said, and nothing is applied or released early |
| `Progressive.ReleasesAddUp` | src/progressive-reconciliation.ts:64-78 | early-released tokens are the larger of reservation and first hold, less the current hold; equal to reservation less hold exactly when the first hold does not exceed it |
| `Progressive.MarginAboveReservation` | src/progressive-reconciliation.ts:54-78 | a run in which it does exceed it: 20 tokens held against 15 reserved, none released |
| `SSE.SSEUsageExtractor.Push` | src/sse.ts:53-66 | after any chunk, buffer, usage and callbacks are those of the whole text fed so far |
| `SSE.SSEUsageExtractor.HandleDataLine` | src/sse.ts:23-50 | what one data line does, and when it calls back |
| `SSE.SSEUsageExtractor.Current` | src/sse.ts:67-70 | the last callback, or nothing if there was none |
| `SSE.LinesAppend` | src/sse.ts:53-66 | lines already complete stay as they are, and the rest come from the leftover and the new text |
| `SSE.FeedInChunks` | src/sse.ts:18-73 | however a stream is split, the callbacks, the current usage and the leftover are those of the whole stream |
| `SSE.OutputNeverDecreases` | src/sse.ts:41-48 | from one callback to the next the reported output never falls |
| `SSE.OutputIsLargest` | src/sse.ts:43-50 | the output is the largest count of output, rounded down |
| `SSE.InputIsLast` | src/sse.ts:33-42 | the input is the last count of input, rounded down |
| `SSE.DataLines` | src/sse.ts:57-65 | which lines carry an event, and what of them is parsed |
| `SSE.LinesRejoin` | src/sse.ts:53-66 | the lines and the leftover are the text, cut at every newline |
| `RetryHint.AveragesAreBounded` | src/retry-hint.ts:105-131 | the interval average lies between the smallest and largest observed gap, the release average between the smallest and largest release, and gaps are one fewer than completions |
| `RetryHint.LatestPulls` | src/retry-hint.ts:105-131 | each observation leaves of an average's distance to it the decay of the gap before it; the first gap is taken whole |
| `RetryHint.HintedExactly` | src/retry-hint.ts:133-146 | there is a hint exactly when hints are on, there are enough samples with a positive interval, and the refusal is for slots, queue, time, or tokens that completions can free |
| `RetryHint.BudgetWaitIsLeast` | src/retry-hint.ts:158-175 | a wait for tokens counts the fewest average completions that cover the deficit |
| `RetryHint.NothingMissingWaitsForOne` | src/retry-hint.ts:158-175 | and with nothing missing, the next completion |
| `RetryHint.HintWithinRounded` | src/retry-hint.ts:148-156 | a hint lies between the rounded bounds |
| `RetryHint.HintsWithinBoundsExactly` | src/retry-hint.ts:148-156 | all hints lie within the bounds exactly when rounding leaves the bounds inside |
| `RetryHint.FloorRoundsOutward` | src/retry-hint.ts:153-154 | a floor of 0.4 milliseconds and a hint of 0 below it |
| `RetryHint.IntegerBoundsRoundInward` | src/retry-hint.ts:148-156 | integer bounds always do |
| `RetryHint.HintReachesLastNeeded` | src/retry-hint.ts:145-156 | a hint the bounds do not cut off ends, to within half a millisecond, when the last completion needed is due at the average interval |
| `RetryHint.QueueWaitsForAllBefore` | src/retry-hint.ts:171-176 | a refusal for want of slots waits for everything queued and one slot more |
| `RetryHint.RetryAfterCoversHint` | src/retry-hint.ts:219-222 | the header (section 10.2.3 of RFC 9110) is never shorter than the hint, overshoots by under a second, and is absent exactly below one second |
| `RetryHint.HeaderCoversWaitExactly` | src/retry-hint.ts:133-222 | for any hint that has a header, the header covers the wait estimated by the averages exactly when that wait was neither cut off past the longest header the ceiling allows nor, within the ceiling, so little over a whole number of seconds that rounding takes that off |
| `RetryHint.WholeCeilingCutsOff` | src/retry-hint.ts:148-156 | with a ceiling of whole seconds, a wait is cut off exactly when it is past the ceiling |
| `RetryHint.CutOffComesEarly` | src/retry-hint.ts:153 | under the default bounds, a wait of 100 seconds gets a header of 30 |
| `RetryHint.RoundingComesEarly` | src/retry-hint.ts:154 | and a wait of 1000.25 milliseconds a header of one second |
| `RetryHint.RetryHintEstimator.ObserveCompletion` | src/retry-hint.ts:105-131 | each pool's state is the average over its own completions |
| `RetryHint.RetryHintEstimator.HintMs` | src/retry-hint.ts:133-156 | the hint is that of the averages over everything observed |

## Left out

- The bulkhead library: real admission, queueing and adaptive estimation; only the assumptions above are used.
- HTTP serving, proxying and shutdown, token persistence, identity, configuration parsing and telemetry: input and output around the core, or chains of independent checks.
- Jitter and backoff of retries: easy bounds with no state worth proving.
- Two calls to `pollNow` that overlap, or one that overlaps the poll loop: the code does not protect them, and the model has one poll at a time.
- Epochs across a registration: the code lets the epoch drop there, so nothing is claimed.
- A drain target may be set for a pool whose kill switch fired during its own acknowledgement; the model has this behaviour and makes no claim against it.
- Writers of limits other than the agent, in the runs of the machine.
- What an uncaught exception does to the process: the machine goes on from the agent's state, for a process that survives it.
- Several rejection acknowledgements in a row are one await of the machine; no state the model has changes between them.
- One synchronous stretch reads the clock once, where the code may read it several times within the same millisecond.
- Dates are integers of milliseconds, and the timer fires at any time once set: that it fires in time is not modelled. A reply with a stale epoch, for one, moves the clock and does not set the timer anew.
- The check of a floor against its ceiling while a class table is being read: it is made with the other checks on limits, which refuse the same tables.
- Integers are unbounded: sums of safe integers above 2^53, which would lose precision in the original, are exact here.
- Scores, averages and token amounts are exact reals, and the decay factor is only assumed to lie above 0 and at most 1.
- The order in which a map or an object yields its keys is left open; every result holds for any order.
- `localeCompare` is any strict total order; strings it calls equal though they differ are not modelled.
- Looking up a class name that is a property every JavaScript object inherits is not modelled; a map has only its own keys.
- Error messages and log lines; a throw is an outcome without a text.
- JSON and URL parsing are parameters; a field of the wrong type is one value, whatever it was.
- `PoolStore.Pool.OnAdmit`: what the library reports of the resources of an admission is one flag, because its other fields are not shown.
- `PoolStore.Pool.BulkheadApplyLimits`: an assumption about the library, written as a method.
