/** What the grant agent guarantees over every run. */
module AgentTheorems {
  import opened Wrappers
  import Sums
  import opened Text
  import opened Limits
  import opened PoolStore
  import opened Demand
  import opened Drain
  import opened AgentModel
  import opened AgentInvariant
  import opened AgentSteps
  import opened AgentBatches

  // ---------- The kill switch is total ----------

  /**
   * When the timer fires on expired grants it closes all of them or none, and it closes them exactly
   * when every expired grant's revision has a safe integer above it. The agent is the only writer of
   * limits here; `ClosableExactly` says what else could stop it if it were not. A throw leaves the
   * state as it is, for whoever survives it: nothing in the repository catches what a timer throws, so
   * the shipped program ends there.
   */
  lemma KillSwitchTotal(c: Config, s: AgentState, now: int)
    requires Inv(c, s) && s.armed && Expired(s, now) != map[]
    ensures Killable(s, now) <==> forall p <- Expired(s, now) :: s.grants[p].revision < MAX_SAFE_INTEGER
    ensures !Killable(s, now) ==> OnTimer(s, now) == s.(armed := false, halted := true)
  {
    hide Installable, KillUpdate, Origins, Matches;
    forall p <- Expired(s, now)
      ensures s.grants[p].pool == p && p in s.live
      ensures Installable(s.live, KillUpdate(s.live, s.grants[p])) <==> s.grants[p].revision < MAX_SAFE_INTEGER
    {
      KillInstallable(c, s, p);
    }
  }

  /**
   * Whatever else has written limits, and whatever state the agent is in: the expired grants can be
   * closed exactly when each still has its pool, no limits newer than its own are live there, it
   * agrees with the pool about having a token budget, and a safe integer follows its revision.
   */
  lemma ClosableExactly(s: AgentState, now: int)
    requires AllWellFormed(s.live)
    requires forall p <- s.grants :: s.grants[p].pool == p && GrantSane(s.grants[p])
    ensures Killable(s, now) <==>
              forall p <- Expired(s, now) ::
                && p in s.live
                && s.live[p].revision <= s.grants[p].revision < MAX_SAFE_INTEGER
                && s.live[p].tokenBudget.Some? == s.grants[p].limits.tokenBudget.Some?
  {
    hide Installable, KillUpdate, WellFormed, GrantSane;
    forall p <- Expired(s, now) | p in s.live
      ensures Installable(s.live, KillUpdate(s.live, s.grants[p])) <==>
                && s.live[p].revision <= s.grants[p].revision < MAX_SAFE_INTEGER
                && s.live[p].tokenBudget.Some? == s.grants[p].limits.tokenBudget.Some?
    {
      ClosableOne(s.live, s.grants[p]);
    }
  }

  lemma ClosableOne(live: map<PoolId, AdmissionLimits>, g: Grant)
    requires g.pool in live && WellFormed(live[g.pool]) && GrantSane(g)
    ensures Installable(live, KillUpdate(live, g)) <==>
              && live[g.pool].revision <= g.revision < MAX_SAFE_INTEGER
              && live[g.pool].tokenBudget.Some? == g.limits.tokenBudget.Some?
  {
    hide WellFormed, Acceptable;
    ClosedAcceptable(live[g.pool], g.revision + 1, g.limits.tokenBudget.Some?);
  }

  /** What closing does: expired pools hold nothing one revision up and are let go, and no other pool moves. */
  lemma KillSwitchCloses(c: Config, s: AgentState, now: int, p: PoolId)
    requires Inv(c, s) && s.armed && Expired(s, now) != map[] && Killable(s, now) && p in s.live
    ensures var t := OnTimer(s, now);
            && p in t.live && !t.ready
            && (p in Expired(s, now) ==>
                  && HoldsNothing(t.live[p])
                  && SameShape(s.live[p], t.live[p])
                  && t.live[p].revision == s.grants[p].revision + 1
                  && p !in t.grants && p !in t.targets)
            && (p !in Expired(s, now) ==>
                  t.live[p] == s.live[p] && Find(t.grants, p) == Find(s.grants, p)
                  && Find(t.targets, p) == Find(s.targets, p))
  {
    hide HoldsNothing, SameShape, Origins, Killable, KillLive, GrantSane;
    KillAdvances(c, s, now, p);
    if p in Expired(s, now) {
      KillOne(c, s, now, p);
    }
  }

  /**
   * Held grants are watched. Between polls the expiration timer is set whenever a grant is held,
   * unless it was stopped or its own handler threw and nothing has set it since.
   */
  lemma TimerIsSet(c: Config, live: map<PoolId, AdmissionLimits>, events: seq<Event>)
    requires AllWellFormed(live)
    ensures var s := Run(c, live, events);
            (s.phase.Idle? || s.phase.Rejecting?) && s.grants != map[] && !s.halted ==> s.armed
  {
    hide Run;
    RunInv(c, live, events);
  }

  /** The step sets the timer anew: for every grant held afterwards, or not at all when none is. */
  ghost predicate Reschedules(c: Config, s: AgentState, e: Event) {
    match e
    case PollReply(d, topologyAccepted, now) => ShortReply(c, s, d, topologyAccepted)
    case RejectionAcked(now) => s.phase.Rejecting? && s.phase.recheck
    case Published(demand, now) => s.phase.Publishing?
    case _ => false
  }

  /** A current desired state that leaves out a managed pool. */
  ghost predicate ShortReply(c: Config, s: AgentState, d: DesiredState, topologyAccepted: bool) {
    && s.phase.Idle? && Parsed(c, d) && topologyAccepted
    && !(s.epoch.Some? && d.controllerEpoch < s.epoch.value)
    && exists p <- c.managed :: !Granted(d.grants, p)
  }

  /**
   * A set timer is lost, at any await, exactly when the agent is stopped, when it fires and throws or
   * closes every grant held, or when it is set anew with no grant held.
   */
  lemma TimerLostExactly(c: Config, s: AgentState, e: Event)
    requires s.armed
    ensures !Step(c, s, e).armed <==>
              || e.Stopped?
              || (&& e.TimerFired?
                  && if Expired(s, e.now) == map[] then s.grants == map[]
                     else Killable(s, e.now) ==> s.grants.Keys == Expired(s, e.now).Keys)
              || (Reschedules(c, s, e) && s.grants == map[])
  {
    hide OnTimer, OnPollReply, Expired, Killable, Complete, Retire, AckTarget, ShortReply;
    match e
    case TimerFired(now) => TimerAfterFiring(s, now);
    case PollReply(d, topologyAccepted, now) => TimerAfterReply(c, s, d, topologyAccepted, now);
    case _ =>
  }

  /** An unset timer is set, at any await, exactly when it is set anew while a grant is held. */
  lemma TimerSetExactly(c: Config, s: AgentState, e: Event)
    requires !s.armed
    ensures Step(c, s, e).armed <==> Reschedules(c, s, e) && s.grants != map[]
  {
    hide OnPollReply, Complete, Retire, AckTarget, ShortReply;
    match e
    case PollReply(d, topologyAccepted, now) => TimerAfterReply(c, s, d, topologyAccepted, now);
    case _ =>
  }

  lemma TimerAfterFiring(s: AgentState, now: int)
    requires s.armed
    ensures !OnTimer(s, now).armed <==>
              if Expired(s, now) == map[] then s.grants == map[]
              else Killable(s, now) ==> s.grants.Keys == Expired(s, now).Keys
  {
    assert Expired(s, now).Keys <= s.grants.Keys;
    NothingLeft(s.grants, Expired(s, now).Keys);
    hide OnTimer, Killable, Expired, KillLive;
    TimerCases(s, now);
  }

  lemma NothingLeft<V>(m: map<PoolId, V>, gone: set<PoolId>)
    requires gone <= m.Keys
    ensures m - gone == map[] <==> m.Keys == gone
  {
    if m - gone == map[] {
      forall p <- m
        ensures p in gone
      {
        assert p !in m - gone;
      }
    } else {
      var p :| p in m - gone;
      assert p in m.Keys && p !in gone;
    }
  }

  lemma TimerAfterReply(c: Config, s: AgentState, d: DesiredState, topologyAccepted: bool, now: int)
    ensures var t := OnPollReply(c, s, d, topologyAccepted, now);
            if ShortReply(c, s, d, topologyAccepted)
            then t.armed == (s.grants != map[]) && !t.halted && t.grants == s.grants && t.ready == Complete(c, t, now)
            else t.armed == s.armed && t.halted == s.halted
  {
    hide Complete, OnPollReply, ShortReply;
    if !s.phase.Idle? {
      NotIdle(c, s, d, topologyAccepted, now);
    } else if ShortReply(c, s, d, topologyAccepted) {
      TimerAfterShort(c, s, d, topologyAccepted, now);
    } else {
      TimerAfterFull(c, s, d, topologyAccepted, now);
    }
  }

  lemma TimerAfterShort(c: Config, s: AgentState, d: DesiredState, topologyAccepted: bool, now: int)
    requires ShortReply(c, s, d, topologyAccepted)
    ensures var t := OnPollReply(c, s, d, topologyAccepted, now);
            t.armed == (s.grants != map[]) && !t.halted && t.grants == s.grants && t.ready == Complete(c, t, now)
  {
    hide Parsed, Granted, Complete, Recheck, ApplyDesired, OnPollReply;
    var fenced := s.(clock := Some(Clock(d.serverTime, now)), epoch := Some(d.controllerEpoch));
    PollCases(c, s, d, topologyAccepted, now);
    ApplyCases(c, fenced, d.grants, now);
    RecheckKeeps(c, fenced, now);
  }

  lemma TimerAfterFull(c: Config, s: AgentState, d: DesiredState, topologyAccepted: bool, now: int)
    requires s.phase.Idle? && !ShortReply(c, s, d, topologyAccepted)
    ensures var t := OnPollReply(c, s, d, topologyAccepted, now);
            t.armed == s.armed && t.halted == s.halted
  {
    hide Parsed, Granted, ApplyDesired, OnPollReply;
    PollCases(c, s, d, topologyAccepted, now);
    if (forall p <- c.managed :: Granted(d.grants, p)) {
      var fenced := s.(clock := Some(Clock(d.serverTime, now)), epoch := Some(d.controllerEpoch));
      FullKeepsTimer(c, fenced, d.grants, now);
    }
  }

  lemma FullKeepsTimer(c: Config, s: AgentState, grants: seq<Grant>, now: int)
    requires forall p <- c.managed :: Granted(grants, p)
    ensures var t := ApplyDesired(c, s, grants, now); t.armed == s.armed && t.halted == s.halted
  {
    hide Granted, ApplyDesired, ApplyChecked;
    ApplyCases(c, s, grants, now);
    AppliedKeepsTimer(s, grants, now);
  }

  lemma NotIdle(c: Config, s: AgentState, d: DesiredState, topologyAccepted: bool, now: int)
    requires !s.phase.Idle?
    ensures OnPollReply(c, s, d, topologyAccepted, now) == s && !ShortReply(c, s, d, topologyAccepted)
  {
    hide Parsed, ApplyDesired;
  }

  lemma AppliedKeepsTimer(s: AgentState, grants: seq<Grant>, now: int)
    ensures var t := ApplyChecked(s, grants, now); t.armed == s.armed && t.halted == s.halted
  {
    hide FirstReject, Updates, Accepted, Installed, Remember, Shrinks, StillDesired, Additions;
  }

  lemma RecheckKeeps(c: Config, s: AgentState, now: int)
    ensures var t := Recheck(c, s, now);
            t.armed == (s.grants != map[]) && !t.halted && t.grants == s.grants && t.ready == Complete(c, t, now)
  {
  }

  /**
   * So a held grant goes unwatched, at any await, only after a stop or a throw, or since a moment at
   * which nothing was held: the timer was not set then, and has not been since.
   */
  lemma {:induction false} UnwatchedSinceNothingHeld(c: Config, live: map<PoolId, AdmissionLimits>, events: seq<Event>)
    returns (i: nat)
    requires var s := Run(c, live, events); !s.armed && !s.halted
    ensures i <= |events| && Run(c, live, events[..i]).grants == map[]
    ensures forall j | i <= j <= |events| :: !Run(c, live, events[..j]).armed
    decreases |events|
  {
    hide Step;
    i := |events|;
    assert events[..i] == events;
    if Run(c, live, events).grants != map[] {
      var n := |events| - 1;
      var s := Run(c, live, events[..n]);
      StaysUnset(c, s, events[n]);
      i := UnwatchedSinceNothingHeld(c, live, events[..n]);
      forall j | i <= j <= |events|
        ensures !Run(c, live, events[..j]).armed
      {
        assert j <= n ==> events[..n][..j] == events[..j];
      }
      assert events[..n][..i] == events[..i];
    }
  }

  /** A step that ends with a grant held, and the timer neither set nor given up, began without it set or given up. */
  lemma StaysUnset(c: Config, s: AgentState, e: Event)
    requires var t := Step(c, s, e); !t.armed && !t.halted && t.grants != map[]
    ensures !s.armed && !s.halted
  {
    hide OnTimer, OnPollReply, Expired, Killable, KillLive, Complete, Retire, AckTarget, ShortReply;
    match e
    case TimerFired(now) => FiringUnsets(s, now);
    case PollReply(d, topologyAccepted, now) => TimerAfterReply(c, s, d, topologyAccepted, now);
    case _ =>
  }

  lemma FiringUnsets(s: AgentState, now: int)
    ensures var t := OnTimer(s, now);
            t == s || (t.halted && !t.armed) || t.armed == (t.grants != map[])
  {
    hide Killable, KillLive, Expired;
    if s.armed {
      TimerCases(s, now);
      hide OnTimer;
    }
  }

  // ---------- Commits without a timer ----------

  ghost predicate InCommit(s: AgentState) {
    s.phase.Committing? || s.phase.Publishing?
  }

  /** The publish that ends a commit. */
  ghost predicate EndsCommit(s: AgentState, e: Event) {
    s.phase.Publishing? && e.Published?
  }

  /** No event from that one on ends a commit. */
  ghost predicate NotEnded(c: Config, live: map<PoolId, AdmissionLimits>, events: seq<Event>, from: nat) {
    forall k | from <= k < |events| :: !EndsCommit(Run(c, live, events[..k]), events[k])
  }

  /**
   * From anywhere in a commit at which the timer is not set, nothing sets it and nothing that is held
   * is let go until the publish that ends the commit, whatever else happens meanwhile.
   */
  lemma {:induction false} CommitStaysUnwatched(c: Config, live: map<PoolId, AdmissionLimits>, events: seq<Event>,
                                                from: nat)
    requires from <= |events| && NotEnded(c, live, events, from)
    requires var s := Run(c, live, events[..from]); InCommit(s) && !s.armed
    ensures var s, t := Run(c, live, events[..from]), Run(c, live, events);
            InCommit(t) && !t.armed && s.grants.Keys <= t.grants.Keys
    decreases |events|
  {
    hide Step, InCommit, EndsCommit, NotEnded;
    if from == |events| {
      assert events[..from] == events;
    } else {
      var n := |events| - 1;
      EndedBefore(c, live, events, from);
      assert events[..n][..from] == events[..from];
      CommitStaysUnwatched(c, live, events[..n], from);
      UnwatchedStep(c, Run(c, live, events[..n]), events[n]);
    }
  }

  lemma EndedBefore(c: Config, live: map<PoolId, AdmissionLimits>, events: seq<Event>, from: nat)
    requires from < |events| && NotEnded(c, live, events, from)
    ensures var n := |events| - 1;
            NotEnded(c, live, events[..n], from) && !EndsCommit(Run(c, live, events[..n]), events[n])
  {
    hide Run, EndsCommit;
    var n := |events| - 1;
    forall k | from <= k < n
      ensures !EndsCommit(Run(c, live, events[..n][..k]), events[..n][k])
    {
      assert events[..n][..k] == events[..k];
    }
  }

  lemma UnwatchedStep(c: Config, s: AgentState, e: Event)
    requires InCommit(s) && !s.armed && !EndsCommit(s, e)
    ensures var t := Step(c, s, e); InCommit(t) && !t.armed && s.grants.Keys <= t.grants.Keys
  {
    hide OnPollReply, OnTimer, Complete, Retire, AckTarget;
    match e
    case PollReply(d, topologyAccepted, now) => NotIdle(c, s, d, topologyAccepted, now);
    case TimerFired(now) => FiringUnset(s, now);
    case _ =>
  }

  /** A timer that is not set cannot fire. */
  lemma FiringUnset(s: AgentState, now: int)
    requires !s.armed
    ensures OnTimer(s, now) == s
  {
  }

  /** The reply that begins a commit leaves the timer as it was. */
  lemma CommitBeginsUnscheduled(c: Config, s: AgentState, d: DesiredState, topologyAccepted: bool, now: int)
    requires s.phase.Idle? && InCommit(OnPollReply(c, s, d, topologyAccepted, now))
    ensures OnPollReply(c, s, d, topologyAccepted, now).armed == s.armed
  {
    hide OnPollReply, Parsed, Granted, Complete, ApplyDesired;
    if ShortReply(c, s, d, topologyAccepted) {
      var fenced := s.(clock := Some(Clock(d.serverTime, now)), epoch := Some(d.controllerEpoch));
      PollCases(c, s, d, topologyAccepted, now);
      ApplyCases(c, fenced, d.grants, now);
      assert false;
    }
    hide ShortReply;
    TimerAfterReply(c, s, d, topologyAccepted, now);
  }

  /** The timer is set only while a grant is held; so nothing held means that nothing is watched. */
  lemma {:induction false} TimerNeedsGrant(c: Config, live: map<PoolId, AdmissionLimits>, events: seq<Event>)
    requires AllWellFormed(live)
    ensures var s := Run(c, live, events); s.armed ==> s.grants != map[]
    decreases |events|
  {
    hide Step;
    if events != [] {
      var n := |events| - 1;
      TimerNeedsGrant(c, live, events[..n]);
      RunInv(c, live, events[..n]);
      StepHolds(c, Run(c, live, events[..n]), events[n]);
    }
  }

  lemma StepHolds(c: Config, s: AgentState, e: Event)
    requires Inv(c, s) && (s.armed ==> s.grants != map[])
    ensures var t := Step(c, s, e); t.armed ==> t.grants != map[]
  {
    hide Inv, OnTimer, OnPollReply, Complete, Retire, AckTarget, ShortReply;
    match e
    case TimerFired(now) => FiringUnsets(s, now);
    case PollReply(d, topologyAccepted, now) =>
      TimerAfterReply(c, s, d, topologyAccepted, now);
      if !ShortReply(c, s, d, topologyAccepted) && s.armed {
        ReplyHolds(c, s, d, topologyAccepted, now);
      }
    case _ =>
  }

  /** A reply takes what is held only to put the first grant of its batch in its place. */
  lemma ReplyHolds(c: Config, s: AgentState, d: DesiredState, topologyAccepted: bool, now: int)
    requires Inv(c, s) && s.grants != map[] && !ShortReply(c, s, d, topologyAccepted)
    ensures OnPollReply(c, s, d, topologyAccepted, now).grants != map[]
  {
    hide Inv, Parsed, ApplyDesired, OnPollReply, ApplyChecked, Granted;
    if !s.phase.Idle? {
      NotIdle(c, s, d, topologyAccepted, now);
    } else {
      PollCases(c, s, d, topologyAccepted, now);
      if (forall p <- c.managed :: Granted(d.grants, p)) {
        var fenced := s.(clock := Some(Clock(d.serverTime, now)), epoch := Some(d.controllerEpoch));
        HeldIsGranted(c, s, d.grants);
        CheckedHolds(fenced, d.grants, now);
        ApplyCases(c, fenced, d.grants, now);
      }
    }
  }

  lemma HeldIsGranted(c: Config, s: AgentState, grants: seq<Grant>)
    requires Inv(c, s) && s.grants != map[] && forall p <- c.managed :: Granted(grants, p)
    ensures grants != []
  {
    var p :| p in s.grants;
    assert p in c.managed;
    assert Granted(grants, p);
  }

  lemma CheckedHolds(s: AgentState, grants: seq<Grant>, now: int)
    requires s.grants != map[] && grants != []
    ensures ApplyChecked(s, grants, now).grants != map[]
  {
    hide FirstReject, Updates, Accepted, Installed, Remember, Shrinks, StillDesired, Additions;
    assert grants[0].pool in map[grants[0].pool := grants[0]];
  }

  // ---------- Revisions decide limits ----------

  /** A poll reply either commits the whole batch it asks for, or leaves limits and history alone. */
  ghost predicate PollOutcome(c: Config, s: AgentState, t: AgentState, grants: seq<Grant>, now: int) {
    && t.initial == s.initial
    && (t.ready ==> s.ready || Complete(c, t, now))
    && (|| (t.live == s.live && t.installs == s.installs)
        || (&& Accepted(s.live, Updates(s.live, s.fallbacks, grants))
            && t.live == Installed(s.live, Updates(s.live, s.fallbacks, grants))
            && s.installs <= t.installs
            && t.ready == s.ready))
  }

  lemma ApplyOutcome(c: Config, s: AgentState, grants: seq<Grant>, now: int)
    ensures PollOutcome(c, s, ApplyDesired(c, s, grants, now), grants, now)
  {
    hide Accepted, Updates, FirstReject, Granted, Commit, Complete, Installed;
    if exists p <- c.managed :: !Granted(grants, p) {
      RecheckOutcome(c, s, now);
    } else if exists i | 0 <= i < |grants| :: grants[i].expiresAt <= EffectiveNow(s.clock, now) {
    } else if FirstReject(s.live, s.fallbacks, grants).Some? {
    } else if Accepted(s.live, Updates(s.live, s.fallbacks, grants)) {
      CommitOutcome(c, s, grants, now);
    }
  }

  lemma RecheckOutcome(c: Config, s: AgentState, now: int)
    ensures Recheck(c, s, now).ready ==> Complete(c, Recheck(c, s, now), now)
    ensures Recheck(c, s, now).live == s.live && Recheck(c, s, now).installs == s.installs
            && Recheck(c, s, now).initial == s.initial
  {
  }

  lemma CommitOutcome(c: Config, s: AgentState, grants: seq<Grant>, now: int)
    requires Accepted(s.live, Updates(s.live, s.fallbacks, grants))
    ensures PollOutcome(c, s, Commit(s, grants, now), grants, now)
  {
    hide Accepted, Updates, Remember, Shrinks, Installed, Additions, StillDesired, Complete;
  }

  lemma ReplyOutcome(c: Config, s: AgentState, d: DesiredState, topologyAccepted: bool, now: int)
    ensures PollOutcome(c, s, OnPollReply(c, s, d, topologyAccepted, now), d.grants, now)
  {
    hide ApplyDesired, Accepted, Updates, Installed, Parsed, Complete;
    ApplyOutcome(c, s.(clock := Some(Clock(d.serverTime, now)), epoch := Some(d.controllerEpoch)), d.grants, now);
  }

  lemma StepAdvances(c: Config, s: AgentState, e: Event)
    requires Inv(c, s)
    ensures var t := Step(c, s, e);
            && t.live.Keys == s.live.Keys && t.initial == s.initial
            && s.installs <= t.installs
            && forall p <- s.live :: Advances(s.live[p], t.live[p])
  {
    hide Advances, OnPollReply, OnTimer, OnAckReply, OnPublished, OnRejectionAcked, Retire, Complete, Inv;
    forall p <- s.live
      ensures Advances(s.live[p], s.live[p])
    {
      NothingMoves(s.live[p]);
    }
    match e
    case PollReply(d, topologyAccepted, now) => PollAdvances(c, s, d, topologyAccepted, now);
    case TimerFired(now) => TimerAdvances(c, s, now);
    case _ => OthersKeepLimits(c, s, e);
  }

  predicate KeepsLimits(s: AgentState, t: AgentState) {
    t.live == s.live && t.initial == s.initial && t.installs == s.installs
  }

  lemma OthersKeepLimits(c: Config, s: AgentState, e: Event)
    requires !e.PollReply? && !e.TimerFired?
    ensures KeepsLimits(s, Step(c, s, e))
  {
    hide OnAckReply, OnPublished, OnRejectionAcked, Retire, Complete;
    match e
    case AckReply(ok) => AckKeeps(s, ok);
    case Published(demand, now) => PublishedKeeps(c, s, demand, now);
    case RejectionAcked(now) => RejectionKeeps(c, s, now);
    case _ =>
  }

  lemma AckKeeps(s: AgentState, ok: bool)
    ensures KeepsLimits(s, OnAckReply(s, ok)) && OnAckReply(s, ok).ready == s.ready
  {
    hide AckTarget;
  }

  lemma PublishedKeeps(c: Config, s: AgentState, demand: Option<seq<PoolDemandSnapshot>>, now: int)
    ensures KeepsLimits(s, OnPublished(c, s, demand, now))
  {
    hide Retire, Complete;
  }

  lemma RejectionKeeps(c: Config, s: AgentState, now: int)
    ensures KeepsLimits(s, OnRejectionAcked(c, s, now))
  {
    hide Complete;
  }

  lemma NothingMoves(l: AdmissionLimits)
    ensures Advances(l, l)
  {
  }

  lemma PollAdvances(c: Config, s: AgentState, d: DesiredState, topologyAccepted: bool, now: int)
    requires Inv(c, s)
    ensures var t := OnPollReply(c, s, d, topologyAccepted, now);
            && t.live.Keys == s.live.Keys && t.initial == s.initial
            && s.installs <= t.installs
            && forall p <- s.live :: Advances(s.live[p], t.live[p])
  {
    hide Advances, Accepted, WellFormed, Updates, Installed, OnPollReply, Complete;
    forall p <- s.live
      ensures Advances(s.live[p], s.live[p])
    {
      NothingMoves(s.live[p]);
    }
    OriginsWellFormed(s);
    ReplyOutcome(c, s, d, topologyAccepted, now);
    if Accepted(s.live, Updates(s.live, s.fallbacks, d.grants)) {
      InstalledAdvances(s.live, Updates(s.live, s.fallbacks, d.grants));
    }
  }

  lemma TimerAdvances(c: Config, s: AgentState, now: int)
    requires Inv(c, s)
    ensures var t := OnTimer(s, now);
            && t.live.Keys == s.live.Keys && t.initial == s.initial && t.installs == s.installs
            && forall p <- s.live :: Advances(s.live[p], t.live[p])
  {
    hide SameShape, Killable, KillLive, WellFormed, OriginOf, HoldsNothing, Closed;
    forall p <- s.live
      ensures SameShape(s.live[p], s.live[p])
    {
      SelfShape(s.live[p]);
    }
    if s.armed && Expired(s, now) != map[] && Killable(s, now) {
      KillKeys(s, now);
      forall p <- s.live
        ensures Advances(s.live[p], KillLive(s, now)[p])
      {
        KillAdvances(c, s, now, p);
        if p in Expired(s, now) {
          KillOne(c, s, now, p);
        }
      }
    }
  }

  lemma KillKeys(s: AgentState, now: int)
    ensures KillLive(s, now).Keys == s.live.Keys
  {
  }

  /**
   * From any state of a run to any later one, a pool keeps its shape and its revision does not drop;
   * and while the revision has not moved, neither have the limits.
   */
  lemma {:induction false} RunAdvances(c: Config, live: map<PoolId, AdmissionLimits>, events: seq<Event>, i: nat)
    requires AllWellFormed(live) && i <= |events|
    ensures var s, t := Run(c, live, events[..i]), Run(c, live, events);
            && t.live.Keys == s.live.Keys && t.initial == s.initial
            && s.installs <= t.installs
            && forall p <- s.live :: Advances(s.live[p], t.live[p])
    decreases |events|
  {
    hide Step, Inv;
    var s := Run(c, live, events[..i]);
    if i == |events| {
      assert events[..i] == events;
      forall p <- s.live
        ensures Advances(s.live[p], s.live[p])
      {
        NothingMoves(s.live[p]);
      }
    } else {
      var n := |events| - 1;
      assert events[..n][..i] == events[..i];
      RunAdvances(c, live, events[..n], i);
      RunInv(c, live, events[..n]);
      var r := Run(c, live, events[..n]);
      StepAdvances(c, r, events[n]);
      forall p <- s.live
        ensures Advances(s.live[p], Run(c, live, events).live[p])
      {
        AdvancesTransitive(s.live[p], r.live[p], Run(c, live, events).live[p]);
      }
    }
  }

  lemma AdvancesTransitive(a: AdmissionLimits, b: AdmissionLimits, c: AdmissionLimits)
    requires Advances(a, b) && Advances(b, c)
    ensures Advances(a, c)
  {
  }

  // ---------- No resurrection ----------

  /** The ledger's own guarantees, for any two installations of a run and for each on its own. */
  lemma InstallsAreOrdered(c: Config, live: map<PoolId, AdmissionLimits>, events: seq<Event>, i: nat, j: nat)
    requires AllWellFormed(live)
    requires i < j < |Run(c, live, events).installs|
    ensures var a, b := Run(c, live, events).installs[i], Run(c, live, events).installs[j];
            && a.at < a.expiresAt && b.at < b.expiresAt
            && (a.pool == b.pool ==> a.limits.revision < b.limits.revision)
            && (a.registration == b.registration ==> a.epoch <= b.epoch)
  {
    hide Run;
    RunInv(c, live, events);
    var s := Run(c, live, events);
    assert InstallOk(s, s.installs[i]) && InstallOk(s, s.installs[j]) && Ordered(s.installs[i], s.installs[j]);
  }

  /**
   * A pool without capacity at some point of a run has capacity later only through a grant installed
   * in between: unexpired when it was installed, at a strictly higher revision than the closed one.
   */
  lemma NoResurrection(c: Config, live: map<PoolId, AdmissionLimits>, events: seq<Event>, i: nat, p: PoolId)
    requires AllWellFormed(live) && i <= |events| && p in live
    requires var s, t := Run(c, live, events[..i]), Run(c, live, events);
             p in s.live && p in t.live && s.live[p].maxConcurrent == 0 && t.live[p].maxConcurrent > 0
    ensures var s, t := Run(c, live, events[..i]), Run(c, live, events);
            && s.live[p].revision < t.live[p].revision
            && exists k | |s.installs| <= k < |t.installs| ::
                 t.installs[k].pool == p && t.installs[k].limits == t.live[p]
                 && t.installs[k].at < t.installs[k].expiresAt
  {
    hide Run, WellFormed, SameShape;
    var s, t := Run(c, live, events[..i]), Run(c, live, events);
    RunAdvances(c, live, events, i);
    RunInv(c, live, events[..i]);
    RunInv(c, live, events);
    assert Advances(s.live[p], t.live[p]);
    assert OriginOf(t, p);
    RevisionFloor(s, p);
    LastInstallIs(t.installs, p);
    var last := LastInstall(t.installs, p);
    var k :| 0 <= k < |t.installs| && t.installs[k] == last.value;
    assert InstallOk(t, t.installs[k]);
    assert s.installs == t.installs[..|s.installs|];
  }

  // ---------- Readiness ----------

  /** The step looks at the grants again and sets readiness accordingly. */
  ghost predicate Rechecks(c: Config, s: AgentState, e: Event) {
    match e
    case PollReply(d, topologyAccepted, now) => ShortReply(c, s, d, topologyAccepted)
    case PollFailed(now) => s.phase.Idle?
    case RejectionAcked(now) => s.phase.Rejecting?
    case Published(demand, now) => s.phase.Publishing?
    case _ => false
  }

  /**
   * Whenever a step turns the agent ready, or looks again and leaves it ready, every managed pool holds
   * a grant that is unexpired on the local clock and on the estimated controller clock, at the
   * revision that is live.
   */
  lemma ReadinessIsSound(c: Config, s: AgentState, e: Event, p: PoolId)
    requires Inv(c, s) && p in c.managed
    requires Step(c, s, e).ready && (!s.ready || Rechecks(c, s, e))
    ensures (e.PollReply? || e.PollFailed? || e.RejectionAcked? || e.Published?)
    ensures var t := Step(c, s, e);
            && p in t.grants && p in t.live
            && e.now < t.grants[p].expiresAt
            && (t.clock.Some? ==>
                  t.clock.value.serverTimeMs + (e.now - t.clock.value.observedAtMs) < t.grants[p].expiresAt)
            && t.live[p].revision == t.grants[p].revision
  {
    hide Commit, FirstReject, Accepted, Updates, Parsed, Retire, KillLive, Killable, Granted, Inv, Rechecks, Step;
    StepInv(c, s, e);
    var t := Step(c, s, e);
    if Rechecks(c, s, e) {
      ReadyAgainWhenComplete(c, s, e);
    } else {
      ReadyOnlyWhenComplete(c, s, e);
    }
    HeldMatches(c, t, p);
  }

  lemma ReadyAgainWhenComplete(c: Config, s: AgentState, e: Event)
    requires Rechecks(c, s, e) && Step(c, s, e).ready
    ensures (e.PollReply? || e.PollFailed? || e.RejectionAcked? || e.Published?)
    ensures Complete(c, Step(c, s, e), e.now)
  {
    hide OnPollReply, Retire, Complete, ShortReply;
    match e
    case PollReply(d, topologyAccepted, now) => TimerAfterReply(c, s, d, topologyAccepted, now);
    case PollFailed(now) => CompleteDepends(c, s, Step(c, s, e), now);
    case RejectionAcked(now) => CompleteDepends(c, s, Step(c, s, e), now);
    case Published(demand, now) => CompleteDepends(c, s, Step(c, s, e), now);
  }

  lemma ReadyOnlyWhenComplete(c: Config, s: AgentState, e: Event)
    requires !s.ready && Step(c, s, e).ready
    ensures (e.PollReply? || e.PollFailed? || e.RejectionAcked? || e.Published?)
    ensures Complete(c, Step(c, s, e), e.now)
  {
    hide OnPollReply, OnTimer, OnAckReply, OnPublished, OnRejectionAcked, Retire, Complete;
    match e
    case PollReply(d, topologyAccepted, now) => ReplyOutcome(c, s, d, topologyAccepted, now);
    case PollFailed(now) => CompleteDepends(c, s, Step(c, s, e), now);
    case RejectionAcked(now) => RejectionReady(c, s, now);
    case Published(demand, now) => PublishedReady(c, s, demand, now);
    case TimerFired(now) => TimerNeverReady(s, now);
    case AckReply(ok) => AckKeeps(s, ok);
    case _ =>
  }

  lemma CompleteDepends(c: Config, s: AgentState, t: AgentState, now: int)
    requires s.grants == t.grants && s.clock == t.clock
    ensures Complete(c, s, now) == Complete(c, t, now)
  {
  }

  lemma RejectionReady(c: Config, s: AgentState, now: int)
    ensures OnRejectionAcked(c, s, now).ready ==> s.ready || Complete(c, OnRejectionAcked(c, s, now), now)
  {
  }

  lemma PublishedReady(c: Config, s: AgentState, demand: Option<seq<PoolDemandSnapshot>>, now: int)
    ensures OnPublished(c, s, demand, now).ready ==> s.ready || Complete(c, OnPublished(c, s, demand, now), now)
  {
    hide Retire;
  }

  lemma TimerNeverReady(s: AgentState, now: int)
    ensures OnTimer(s, now).ready ==> s.ready
  {
    hide Killable, KillLive, Expired;
  }

  lemma HeldMatches(c: Config, s: AgentState, p: PoolId)
    requires Inv(c, s) && p in s.grants
    ensures p in s.live && s.live[p].revision == s.grants[p].revision
  {
  }

  /** While the agent is ready, no managed pool is closed: each is live at a grant held or about to be held. */
  lemma ReadyMeansMatched(c: Config, live: map<PoolId, AdmissionLimits>, events: seq<Event>, p: PoolId)
    requires AllWellFormed(live) && p in c.managed && Run(c, live, events).ready
    ensures var s := Run(c, live, events);
            || (p in s.grants && Matches(s.grants[p], s.live))
            || (s.phase.Committing? && exists i | 0 <= i < |s.phase.rest| ::
                  s.phase.rest[i].pool == p && Matches(s.phase.rest[i], s.live))
  {
    hide Run, Matches, Origins, Ledger;
    RunInv(c, live, events);
  }

  // ---------- Class tables ----------

  /**
   * In every reachable state a managed pool is remembered with a table exactly when it has classes,
   * with the same keys; and the table is that of the last grant installed there, or the initial one,
   * however often the pool has been failed closed since.
   */
  lemma FallbackIsLastTable(c: Config, live: map<PoolId, AdmissionLimits>, events: seq<Event>, p: PoolId)
    requires AllWellFormed(live) && p in live && p in c.managed
    ensures var s := Run(c, live, events);
            && p in s.live && p in s.initial
            && Find(s.fallbacks, p) == Base(s, p).admissionClasses
            && (p in s.fallbacks <==> s.live[p].admissionClasses.Some?)
            && (p in s.fallbacks ==> s.fallbacks[p].Keys == s.live[p].admissionClasses.value.Keys)
  {
    hide Run, WellFormed, HoldsNothing, Ledger, Held, Pending;
    RunInv(c, live, events);
    RunAdvances(c, live, events, 0);
    assert events[..0] == [];
    InitialKeys(c, live);
    assert OriginOf(Run(c, live, events), p);
  }

  lemma InitialKeys(c: Config, live: map<PoolId, AdmissionLimits>)
    ensures Run(c, live, []).live == live
  {
  }

  /** So a newer grant is refused over its classes exactly when it brings a table with other keys than the live one. */
  lemma ClassRefusals(c: Config, s: AgentState, g: Grant)
    requires Inv(c, s) && g.pool in c.managed && g.pool in s.live && s.live[g.pool].revision < g.revision
    ensures PlanFor(s.live, s.fallbacks, g).Reject? <==>
              && g.limits.admissionClasses.Some?
              && (s.live[g.pool].admissionClasses.Some? ==>
                    g.limits.admissionClasses.value.Keys != s.live[g.pool].admissionClasses.value.Keys)
    ensures g.limits.admissionClasses.None? ==>
              PlanFor(s.live, s.fallbacks, g) == Replace(Base(s, g.pool).admissionClasses)
  {
    hide WellFormed, HoldsNothing, Ledger, Held, Pending;
    assert OriginOf(s, g.pool);
  }

  // ---------- When a poll fails outright ----------

  /**
   * The grant and the pool agree about having a token budget, and a grant without classes leaves room
   * for the floors it would bring back.
   */
  ghost predicate Fits(s: AgentState, g: Grant)
    requires g.pool in s.live
  {
    && g.limits.tokenBudget.Some? == s.live[g.pool].tokenBudget.Some?
    && (g.limits.admissionClasses.None? && g.pool in s.fallbacks ==>
          FloorsFit(s.fallbacks[g.pool], g.limits.maxConcurrent, g.limits.tokenBudget))
  }

  /**
   * `applyLimits` throws on a desired state that passed every check exactly when some grant to be
   * installed does not fit. Comments beside `resolveGrantAdmissionClasses` say every such mismatch
   * is caught before; these two are not, and the poll then fails without an acknowledgement.
   */
  lemma PollThrowsExactly(c: Config, s: AgentState, d: DesiredState)
    requires Inv(c, s) && Parsed(c, d) && FirstReject(s.live, s.fallbacks, d.grants).None?
    ensures Accepted(s.live, Updates(s.live, s.fallbacks, d.grants)) <==>
              forall i | 0 <= i < |d.grants| && PlanFor(s.live, s.fallbacks, d.grants[i]).Replace? ::
                d.grants[i].pool in s.live && Fits(s, d.grants[i])
  {
    hide PlanFor, Installable, Fits, Inv, Updates, FirstReject, GrantParsed;
    var updates := Updates(s.live, s.fallbacks, d.grants);
    BatchSpec(s.live, s.fallbacks, d.grants);
    forall i | 0 <= i < |d.grants| && PlanFor(s.live, s.fallbacks, d.grants[i]).Replace?
      ensures d.grants[i].pool in s.live
      ensures Installable(s.live, GrantUpdate(d.grants[i], PlanFor(s.live, s.fallbacks, d.grants[i]).classes)) <==>
                Fits(s, d.grants[i])
    {
      assert GrantParsed(c, d.grants[i], d.controllerEpoch);
      FitsExactly(c, s, d.grants[i], d.controllerEpoch);
    }
    if Accepted(s.live, updates) {
      forall i | 0 <= i < |d.grants| && PlanFor(s.live, s.fallbacks, d.grants[i]).Replace?
        ensures d.grants[i].pool in s.live && Fits(s, d.grants[i])
      {
        var u := GrantUpdate(d.grants[i], PlanFor(s.live, s.fallbacks, d.grants[i]).classes);
        var j :| 0 <= j < |updates| && updates[j] == u;
        assert Installable(s.live, updates[j]);
      }
    } else {
      var j :| 0 <= j < |updates| && !Installable(s.live, updates[j]);
      assert updates[j] in updates;
      var i :| 0 <= i < |d.grants| && UpdateFor(s.live, s.fallbacks, d.grants[i], updates[j]);
    }
  }

  lemma FitsExactly(c: Config, s: AgentState, g: Grant, epoch: int)
    requires Inv(c, s) && GrantParsed(c, g, epoch) && 1 <= epoch <= MAX_SAFE_INTEGER
    requires PlanFor(s.live, s.fallbacks, g).Replace?
    ensures g.pool in s.live
    ensures Installable(s.live, GrantUpdate(g, PlanFor(s.live, s.fallbacks, g).classes)) <==> Fits(s, g)
  {
    hide ClassLimitsOk, FloorsFit, HoldsNothing, Ledger, Held, Pending;
    assert OriginOf(s, g.pool);
  }

  // ---------- Retiring a drain target ----------

  /** The step carries published demand to the drain targets: an ordinary heartbeat, or the one that ends a commit. */
  predicate Publishes(s: AgentState, e: Event, demand: seq<PoolDemandSnapshot>) {
    match e
    case HeartbeatReply(accepted) => accepted == demand
    case Published(published, now) => s.phase.Publishing? && published == Some(demand)
    case _ => false
  }

  /** What the published snapshot of a pool shows of the target it meets. */
  ghost predicate Drained(snapshot: PoolDemandSnapshot, t: DrainTarget) {
    && snapshot.inFlight <= t.maxConcurrent
    && (t.requireTokenEvidence ==>
          snapshot.inFlightTokens.Some? && t.tokenBudget.Some? && snapshot.inFlightTokens.value <= t.tokenBudget.value)
    && (t.admissionClasses.Some? ==>
          && snapshot.admissionClasses.Some?
          && (AllAccounted(snapshot.admissionClasses.value) ==>
                ClassesDrained(ByClass(snapshot.admissionClasses.value), t.admissionClasses.value, t.maxConcurrent,
                               t.tokenBudget)))
  }

  predicate AllAccounted(published: seq<AdmissionClassDemandSnapshot>) {
    forall i | 0 <= i < |published| :: Accounted(published[i])
  }

  /** What the classes use or may claim back fits the pool, and each is under its ceilings. */
  ghost predicate ClassesDrained(m: map<ClassId, AdmissionClassDemandSnapshot>, t: ClassDrainTarget,
                                 maxConcurrent: int, budget: Option<int>)
  {
    && m.Keys == t.classes.Keys
    && (t.sharedMaxConcurrent.Some? ==> Sums.Sum(SlotClaims(t, m)) <= maxConcurrent)
    && (t.sharedTokenBudget.Some? ==> budget.Some? && Sums.Sum(TokenClaims(t, m)) <= budget.value)
    && forall id <- t.classes ::
         && (t.classes[id].maxConcurrent.Some? ==> m[id].inFlight <= t.classes[id].maxConcurrent.value)
         && (t.classes[id].maxInFlightTokens.Some? ==>
               m[id].inFlightTokens.Some? && m[id].inFlightTokens.value <= t.classes[id].maxInFlightTokens.value)
  }

  /**
   * Any drain target that published demand retires, in any reachable state and at either place where
   * the agent publishes, is retired soundly: the snapshot shows the pool and its classes drained.
   */
  lemma RetiredTargetsAreSound(c: Config, live: map<PoolId, AdmissionLimits>, events: seq<Event>, e: Event,
                               demand: seq<PoolDemandSnapshot>, p: PoolId)
    requires AllWellFormed(live)
    requires Publishes(Run(c, live, events), e, demand)
    requires p in Run(c, live, events).targets && p !in Step(c, Run(c, live, events), e).targets
    ensures p in ByPool(demand) && Drained(ByPool(demand)[p], Run(c, live, events).targets[p])
  {
    hide Run, ByPool, ByClass, ClassTargetReady, TargetSound, Accounted, SlotClaims, TokenClaims, Complete;
    var s := Run(c, live, events);
    RunInv(c, live, events);
    assert Step(c, s, e).targets == Retire(s.targets, demand);
    RetiredIsReady(s.targets, demand, p);
    SoundTarget(c, s, p);
    ReadyIsDrained(ByPool(demand)[p], s.targets[p]);
  }

  lemma ReadyIsDrained(snapshot: PoolDemandSnapshot, t: DrainTarget)
    requires TargetSound(t) && TargetReady(snapshot, t)
    ensures Drained(snapshot, t)
  {
    hide ByClass, ClassTargetReady, TargetSound, Accounted, SlotClaims, TokenClaims;
    if t.admissionClasses.Some? && AllAccounted(snapshot.admissionClasses.value) {
      RetirementIsSound(snapshot, t);
      SoundTokens(t);
    }
  }

  lemma RetiredIsReady(targets: map<PoolId, DrainTarget>, demand: seq<PoolDemandSnapshot>, p: PoolId)
    requires p in targets && p !in Retire(targets, demand)
    ensures p in ByPool(demand) && TargetReady(ByPool(demand)[p], targets[p])
  {
  }

  lemma SoundTarget(c: Config, s: AgentState, p: PoolId)
    requires Inv(c, s) && p in s.targets
    ensures TargetSound(s.targets[p])
  {
    hide TargetSound;
  }

  lemma SoundTokens(t: DrainTarget)
    requires TargetSound(t) && t.admissionClasses.Some?
    ensures t.admissionClasses.value.sharedTokenBudget.Some? ==> t.tokenBudget.Some?
  {
  }
}
