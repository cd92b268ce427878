/**
 * The grant agent of `src/latchflo.ts` as a state machine. Each asynchronous method is cut at its
 * awaits: what runs between two awaits is one step, and `Phase` is where the poll is suspended.
 * The expiration timer, heartbeat replies, registrations and `stop` may come between any two
 * steps; polls do not overlap, and nothing but the agent writes limits.
 */
module AgentModel {
  import opened Wrappers
  import opened Text
  import opened Limits
  import opened PoolStore
  import opened Demand
  import opened Drain

  /** Timestamps are milliseconds. */
  datatype Grant = Grant(
    grantId: string,
    instanceId: string,
    pool: PoolId,
    controllerEpoch: int,
    revision: int,
    issuedAt: int,
    expiresAt: int,
    limits: AdmissionLimits)

  datatype DesiredState = DesiredState(controllerEpoch: int, serverTime: int, grants: seq<Grant>)

  datatype Clock = Clock(serverTimeMs: int, observedAtMs: int)

  datatype Config = Config(instanceId: string, managed: seq<PoolId>)

  datatype Reason =
    | GrantExpired
    | UnknownManagedPool
    | LocalRevisionAhead
    | RevisionContentConflict
    | ClassesNotConfigured
    | ClassKeyMismatch

  /** Where the poll is suspended. */
  datatype Phase =
    | Idle
    /** Rejections are being acknowledged; readiness follows, rechecked or simply withdrawn. */
    | Rejecting(reason: Reason, recheck: bool)
    /** `acking` is held and its acknowledgement is on the wire; `rest` is installed but not yet held. */
    | Committing(acking: Grant, rest: seq<Grant>, shrink: map<PoolId, DrainTarget>)
    | Publishing

  /** One installation of a grant, as it happened. */
  datatype Install = Install(pool: PoolId, limits: AdmissionLimits, epoch: int, expiresAt: int, at: int,
                             registration: nat)

  datatype AgentState = AgentState(
    live: map<PoolId, AdmissionLimits>,
    grants: map<PoolId, Grant>,
    fallbacks: map<PoolId, ClassTable>,
    targets: map<PoolId, DrainTarget>,
    epoch: Option<int>,
    clock: Option<Clock>,
    ready: bool,
    /**
     * The expiration timer is set; `halted` says nothing has set it since it threw or was stopped.
     * What follows a throw is the agent's state in a process that survives it.
     */
    armed: bool,
    halted: bool,
    phase: Phase,
    /** History. */
    initial: map<PoolId, AdmissionLimits>,
    installs: seq<Install>,
    registrations: nat)

  datatype Event =
    | PollReply(desired: DesiredState, topologyAccepted: bool, now: int)
    | PollFailed(now: int)
    | RejectionAcked(now: int)
    | AckReply(ok: bool)
    | Published(demand: Option<seq<PoolDemandSnapshot>>, now: int)
    | HeartbeatReply(accepted: seq<PoolDemandSnapshot>)
    | TimerFired(now: int)
    | Registered(epoch: int)
    | Stopped

  // ---------- Parsing ----------

  ghost predicate GrantParsed(c: Config, g: Grant, epoch: int) {
    && g.instanceId == c.instanceId
    && g.pool in c.managed
    && g.controllerEpoch == epoch
    && 1 <= g.revision
    && ParsedLimits(g.limits)
    && g.limits.revision == g.revision
    && g.issuedAt < g.expiresAt
    && !Blank(g.grantId)
  }

  predicate DistinctGrants(grants: seq<Grant>) {
    forall i, j | 0 <= i < j < |grants| :: grants[i].pool != grants[j].pool
  }

  /** What `parseDesiredState` lets through. */
  ghost predicate Parsed(c: Config, d: DesiredState) {
    && 1 <= d.controllerEpoch <= MAX_SAFE_INTEGER
    && DistinctGrants(d.grants)
    && forall i | 0 <= i < |d.grants| :: GrantParsed(c, d.grants[i], d.controllerEpoch)
  }

  // ---------- Clocks and readiness ----------

  /** The later of the local clock and the estimated controller clock. */
  function EffectiveNow(clock: Option<Clock>, localNow: int): int {
    match clock
    case None => localNow
    case Some(k) => Max(localNow, k.serverTimeMs + (localNow - k.observedAtMs))
  }

  predicate Complete(c: Config, s: AgentState, localNow: int) {
    forall p <- c.managed :: p in s.grants && EffectiveNow(s.clock, localNow) < s.grants[p].expiresAt
  }

  /** `#scheduleExpiration`. */
  function Schedule(s: AgentState): AgentState {
    s.(armed := s.grants != map[], halted := false)
  }

  function Recheck(c: Config, s: AgentState, localNow: int): AgentState {
    Schedule(s.(ready := Complete(c, s, localNow)))
  }

  // ---------- Deciding one grant ----------

  datatype Plan = Reject(reason: Reason) | Keep | Replace(classes: Option<ClassTable>)

  /** `limitsEqual`: a grant that omits classes has no opinion about them. */
  predicate LimitsEqual(live: AdmissionLimits, granted: AdmissionLimits) {
    && live.revision == granted.revision
    && live.maxConcurrent == granted.maxConcurrent
    && live.maxQueue == granted.maxQueue
    && live.tokenBudget == granted.tokenBudget
    && (granted.admissionClasses.Some? ==> live.admissionClasses == granted.admissionClasses)
  }

  /** `resolveGrantAdmissionClasses`. */
  function ResolveClasses(live: AdmissionLimits, granted: Option<ClassTable>, remembered: Option<ClassTable>): Plan {
    var fallback := if remembered.Some? then remembered else live.admissionClasses;
    if granted.None? then Replace(fallback)
    else if fallback.None? then Reject(ClassesNotConfigured)
    else if fallback.value.Keys != granted.value.Keys then Reject(ClassKeyMismatch)
    else Replace(granted)
  }

  function PlanFor(live: map<PoolId, AdmissionLimits>, fallbacks: map<PoolId, ClassTable>, g: Grant): Plan {
    if g.pool !in live then Reject(UnknownManagedPool)
    else if g.revision < live[g.pool].revision then Reject(LocalRevisionAhead)
    else if g.revision == live[g.pool].revision then
      if LimitsEqual(live[g.pool], g.limits) then Keep else Reject(RevisionContentConflict)
    else ResolveClasses(live[g.pool], g.limits.admissionClasses, Find(fallbacks, g.pool))
  }

  /** The rejection of the first grant that is rejected. */
  function FirstReject(live: map<PoolId, AdmissionLimits>, fallbacks: map<PoolId, ClassTable>,
                       grants: seq<Grant>): Option<Reason>
  {
    if grants == [] then None
    else
      var n := |grants| - 1;
      var earlier := FirstReject(live, fallbacks, grants[..n]);
      var plan := PlanFor(live, fallbacks, grants[n]);
      if earlier.Some? then earlier else if plan.Reject? then Some(plan.reason) else None
  }

  function ProvenanceOf(g: Grant, revision: int): Provenance {
    Provenance("latchflo", g.grantId, g.controllerEpoch, revision, Some(g.expiresAt))
  }

  /** `grantUpdate`. */
  function GrantUpdate(g: Grant, classes: Option<ClassTable>): PoolLimitsUpdate {
    PoolLimitsUpdate(g.pool, g.limits.(admissionClasses := classes), Some(ProvenanceOf(g, g.revision)))
  }

  /** The batch that installs the grants that are newer than what is live, in their order. */
  function Updates(live: map<PoolId, AdmissionLimits>, fallbacks: map<PoolId, ClassTable>,
                   grants: seq<Grant>): seq<PoolLimitsUpdate>
  {
    if grants == [] then []
    else
      var n := |grants| - 1;
      var plan := PlanFor(live, fallbacks, grants[n]);
      Updates(live, fallbacks, grants[..n]) + if plan.Replace? then [GrantUpdate(grants[n], plan.classes)] else []
  }

  /** The drain targets those installations call for. */
  ghost function Shrinks(live: map<PoolId, AdmissionLimits>, fallbacks: map<PoolId, ClassTable>,
                         grants: seq<Grant>): map<PoolId, DrainTarget>
  {
    if grants == [] then map[]
    else
      var n := |grants| - 1;
      var g := grants[n];
      var earlier := Shrinks(live, fallbacks, grants[..n]);
      var plan := PlanFor(live, fallbacks, g);
      if plan.Replace? && g.pool in live && DrainTargetOf(live[g.pool], g.limits, plan.classes).Some?
      then earlier[g.pool := DrainTargetOf(live[g.pool], g.limits, plan.classes).value]
      else earlier
  }

  // ---------- The poll ----------

  predicate Granted(grants: seq<Grant>, p: PoolId) {
    exists i | 0 <= i < |grants| :: grants[i].pool == p
  }

  /** The remembered class table of every pool in the batch becomes the one just installed. */
  function Remember(fallbacks: map<PoolId, ClassTable>, updates: seq<PoolLimitsUpdate>): map<PoolId, ClassTable> {
    if updates == [] then fallbacks
    else
      var u := updates[|updates| - 1];
      var earlier := Remember(fallbacks, updates[..|updates| - 1]);
      if u.limits.admissionClasses.Some? then earlier[u.pool := u.limits.admissionClasses.value] else earlier
  }

  function InstallOf(s: AgentState, u: PoolLimitsUpdate, localNow: int): Install {
    var p := u.provenance.GetOr(Provenance("", "", 0, 0, None));
    Install(u.pool, u.limits, p.controllerEpoch, p.expiresAt.GetOr(0), EffectiveNow(s.clock, localNow), s.registrations)
  }

  function Additions(s: AgentState, updates: seq<PoolLimitsUpdate>, localNow: int): (added: seq<Install>)
    ensures |added| == |updates|
    ensures forall i | 0 <= i < |updates| :: added[i] == InstallOf(s, updates[i], localNow)
  {
    seq(|updates|, i requires 0 <= i < |updates| => InstallOf(s, updates[i], localNow))
  }

  /** Targets stay only while the desired state still asks for the revision they were set for. */
  function StillDesired(targets: map<PoolId, DrainTarget>, grants: seq<Grant>): map<PoolId, DrainTarget> {
    map p | p in targets
            && (exists i | 0 <= i < |grants| :: grants[i].pool == p && grants[i].revision == targets[p].revision) ::
      targets[p]
  }

  /** The batch has been applied: the first grant is held and its acknowledgement sent. */
  ghost function Commit(s: AgentState, grants: seq<Grant>, localNow: int): AgentState {
    var updates := Updates(s.live, s.fallbacks, grants);
    s.(live := Installed(s.live, updates),
       fallbacks := Remember(s.fallbacks, updates),
       installs := s.installs + Additions(s, updates, localNow),
       targets := StillDesired(s.targets, grants),
       grants := if grants == [] then map[] else map[grants[0].pool := grants[0]],
       phase := if grants == [] then Publishing
                else Committing(grants[0], grants[1..], Shrinks(s.live, s.fallbacks, grants)))
  }

  /** `#applyDesiredState` up to its first await. When `applyLimits` throws, the poll fails with nothing changed. */
  ghost function ApplyDesired(c: Config, s: AgentState, grants: seq<Grant>, localNow: int): AgentState {
    if exists p <- c.managed :: !Granted(grants, p) then Recheck(c, s, localNow)
    else if exists i | 0 <= i < |grants| :: grants[i].expiresAt <= EffectiveNow(s.clock, localNow) then
      s.(phase := Rejecting(GrantExpired, true))
    else
      var rejection := FirstReject(s.live, s.fallbacks, grants);
      if rejection.Some? then s.(phase := Rejecting(rejection.value, false))
      else if Accepted(s.live, Updates(s.live, s.fallbacks, grants)) then Commit(s, grants, localNow)
      else s
  }

  /** The synchronous part of `#poll`, from a parsed reply on. */
  ghost function OnPollReply(c: Config, s: AgentState, d: DesiredState, topologyAccepted: bool,
                             localNow: int): AgentState
  {
    if !s.phase.Idle? || !Parsed(c, d) then s
    else
      var timed := s.(clock := Some(Clock(d.serverTime, localNow)));
      if s.epoch.Some? && d.controllerEpoch < s.epoch.value then timed
      else
        var fenced := timed.(epoch := Some(d.controllerEpoch));
        if topologyAccepted then ApplyDesired(c, fenced, d.grants, localNow) else fenced
  }

  /** A delivered acknowledgement of a shrinking grant arms its drain target. */
  function AckTarget(s: AgentState, ok: bool): map<PoolId, DrainTarget>
    requires s.phase.Committing?
  {
    var p := s.phase.acking.pool;
    if ok && p in s.phase.shrink then s.targets[p := s.phase.shrink[p]] else s.targets
  }

  /** The next installed grant, if any, becomes held and its acknowledgement is sent. */
  function OnAckReply(s: AgentState, ok: bool): AgentState {
    if !s.phase.Committing? then s
    else
      var rest := s.phase.rest;
      s.(targets := AckTarget(s, ok),
         grants := if rest == [] then s.grants else s.grants[rest[0].pool := rest[0]],
         phase := if rest == [] then Publishing else Committing(rest[0], rest[1..], s.phase.shrink))
  }

  /** Rejections have been acknowledged: readiness is rechecked and the timer set, or readiness is withdrawn. */
  function OnRejectionAcked(c: Config, s: AgentState, localNow: int): AgentState {
    if !s.phase.Rejecting? then s
    else
      var recheck := s.phase.recheck;
      s.(phase := Idle,
         ready := recheck && Complete(c, s, localNow),
         armed := if recheck then s.grants != map[] else s.armed,
         halted := !recheck && s.halted)
  }

  // ---------- Drain evidence ----------

  function ByPool(demand: seq<PoolDemandSnapshot>): map<PoolId, PoolDemandSnapshot> {
    if demand == [] then map[]
    else
      var n := |demand| - 1;
      ByPool(demand[..n])[demand[n].pool := demand[n]]
  }

  /** `#commitPublishedDrainEvidence`. */
  ghost function Retire(targets: map<PoolId, DrainTarget>, demand: seq<PoolDemandSnapshot>): map<PoolId, DrainTarget> {
    var byPool := ByPool(demand);
    map p | p in targets && !(p in byPool && TargetReady(byPool[p], targets[p])) :: targets[p]
  }

  ghost function OnPublished(c: Config, s: AgentState, demand: Option<seq<PoolDemandSnapshot>>,
                             localNow: int): AgentState
  {
    if !s.phase.Publishing? then s
    else
      s.(targets := if demand.Some? then Retire(s.targets, demand.value) else s.targets,
         phase := Idle,
         ready := Complete(c, s, localNow),
         armed := s.grants != map[],
         halted := false)
  }

  // ---------- The kill switch ----------

  function Expired(s: AgentState, localNow: int): map<PoolId, Grant> {
    map p | p in s.grants && s.grants[p].expiresAt <= EffectiveNow(s.clock, localNow) :: s.grants[p]
  }

  function KillUpdate(live: map<PoolId, AdmissionLimits>, g: Grant): (u: PoolLimitsUpdate)
    requires g.pool in live
    ensures u.pool == g.pool
  {
    PoolLimitsUpdate(
      g.pool, Closed(live[g.pool], g.revision + 1, g.limits.tokenBudget.Some?), Some(ProvenanceOf(g, g.revision + 1)))
  }

  /** Every expired pool can be closed. */
  ghost predicate Killable(s: AgentState, localNow: int) {
    forall p <- Expired(s, localNow) ::
      s.grants[p].pool in s.live && Installable(s.live, KillUpdate(s.live, s.grants[p]))
  }

  function KillLive(s: AgentState, localNow: int): map<PoolId, AdmissionLimits> {
    map p <- s.live ::
      if p in Expired(s, localNow) && s.grants[p].pool in s.live then KillUpdate(s.live, s.grants[p]).limits
      else s.live[p]
  }

  /**
   * `#failClosedExpiredGrants`. A throw leaves everything, including the spent timer, as it is. It leaves
   * the timer's callback uncaught, which ends a Node process unless the embedding program handles it.
   */
  ghost function OnTimer(s: AgentState, localNow: int): AgentState {
    if !s.armed then s
    else if Expired(s, localNow) == map[] then Schedule(s)
    else if Killable(s, localNow) then
      Schedule(s.(live := KillLive(s, localNow),
                  grants := s.grants - Expired(s, localNow).Keys,
                  targets := s.targets - Expired(s, localNow).Keys,
                  ready := false))
    else s.(armed := false, halted := true)
  }

  // ---------- The machine ----------

  ghost function Step(c: Config, s: AgentState, e: Event): AgentState {
    match e
    case PollReply(d, topologyAccepted, now) => OnPollReply(c, s, d, topologyAccepted, now)
    case PollFailed(now) => if s.phase.Idle? then s.(ready := Complete(c, s, now)) else s
    case RejectionAcked(now) => OnRejectionAcked(c, s, now)
    case AckReply(ok) => OnAckReply(s, ok)
    case Published(demand, now) => OnPublished(c, s, demand, now)
    case HeartbeatReply(accepted) => s.(targets := Retire(s.targets, accepted))
    case TimerFired(now) => OnTimer(s, now)
    case Registered(epoch) => s.(epoch := Some(epoch), registrations := s.registrations + 1)
    case Stopped => s.(targets := map[], armed := false, halted := true, ready := false)
  }

  /** The agent just constructed over pools with the given limits. */
  function Initial(c: Config, live: map<PoolId, AdmissionLimits>): AgentState {
    AgentState(
      live, map[],
      map p | p in live && p in c.managed && live[p].admissionClasses.Some? :: live[p].admissionClasses.value,
      map[], None, None, false, false, false, Idle, live, [], 0)
  }

  ghost function Run(c: Config, live: map<PoolId, AdmissionLimits>, events: seq<Event>): AgentState {
    if events == [] then Initial(c, live)
    else Step(c, Run(c, live, events[..|events| - 1]), events[|events| - 1])
  }
}
