/** Where the agent's grants come from, and that what is live is what they say. */
module AgentHoldings {
  import opened Wrappers
  import opened Limits
  import opened PoolStore
  import opened Demand
  import opened Drain
  import opened AgentModel
  import opened AgentInvariant
  import opened AgentSteps
  import opened AgentBatches
  import opened AgentTheorems
  import opened AgentLaws

  // ---------- Grants come from replies ----------

  /** Some reply of the run was let through and brought the grant. */
  ghost predicate Brought(c: Config, events: seq<Event>, g: Grant) {
    exists k | 0 <= k < |events| ::
      events[k].PollReply? && Parsed(c, events[k].desired) && g in events[k].desired.grants
  }

  lemma BroughtEarlier(c: Config, events: seq<Event>, g: Grant)
    requires events != [] && Brought(c, events[..|events| - 1], g)
    ensures Brought(c, events, g)
  {
    var k :| 0 <= k < |events| - 1 && events[k].PollReply? && Parsed(c, events[k].desired)
             && g in events[k].desired.grants;
  }

  /** The grant is held, or installed and about to be. */
  predicate Has(s: AgentState, g: Grant) {
    || (exists p <- s.grants :: s.grants[p] == g)
    || (s.phase.Committing? && g in s.phase.rest)
  }

  ghost predicate BroughtBy(c: Config, e: Event, g: Grant) {
    e.PollReply? && Parsed(c, e.desired) && g in e.desired.grants
  }

  /** Whatever grant the agent has after a step it had before, or the reply brought it. */
  lemma StepHas(c: Config, s: AgentState, e: Event, g: Grant)
    requires Has(Step(c, s, e), g)
    ensures Has(s, g) || BroughtBy(c, e, g)
  {
    hide OnPollReply, Retire, Complete, AckTarget, OnTimer, OnAckReply, Parsed, Has;
    match e
    case PollReply(d, topologyAccepted, now) => ReplyHas(c, s, d, topologyAccepted, now, g);
    case TimerFired(now) => TimerHas(s, now, g);
    case AckReply(ok) => AckHas(s, ok, g);
    case _ => SameHas(s, Step(c, s, e), g);
  }

  lemma SameHas(s: AgentState, t: AgentState, g: Grant)
    requires t.grants == s.grants && (t.phase.Committing? ==> t.phase == s.phase)
    ensures Has(t, g) ==> Has(s, g)
  {
  }

  lemma AckHas(s: AgentState, ok: bool, g: Grant)
    requires Has(OnAckReply(s, ok), g)
    ensures Has(s, g)
  {
    hide AckTarget;
  }

  /** The timer lets grants go and touches nothing else of what the agent has. */
  predicate FewerHeld(s: AgentState, t: AgentState) {
    t.phase == s.phase && forall p <- t.grants :: p in s.grants && t.grants[p] == s.grants[p]
  }

  lemma TimerLetsGo(s: AgentState, now: int)
    ensures FewerHeld(s, OnTimer(s, now))
  {
    hide Killable, KillLive, Expired, OnTimer;
    if s.armed {
      TimerCases(s, now);
    } else {
      FiringUnset(s, now);
    }
  }

  lemma TimerHas(s: AgentState, now: int, g: Grant)
    requires Has(OnTimer(s, now), g)
    ensures Has(s, g)
  {
    hide OnTimer;
    TimerLetsGo(s, now);
  }

  lemma ReplyHas(c: Config, s: AgentState, d: DesiredState, topologyAccepted: bool, now: int, g: Grant)
    requires Has(OnPollReply(c, s, d, topologyAccepted, now), g)
    ensures Has(s, g) || (Parsed(c, d) && g in d.grants)
  {
    hide Parsed, OnPollReply, Commit, Accepted, FirstReject, Updates, Has;
    ReplyKinds(c, s, d, topologyAccepted, now);
    var t := OnPollReply(c, s, d, topologyAccepted, now);
    if Commits(c, s, d, topologyAccepted, now) {
      CommitHas(Fenced(s, d, now), d.grants, now, g);
    } else {
      SameHas(s, t, g);
    }
  }

  lemma CommitHas(s: AgentState, grants: seq<Grant>, now: int, g: Grant)
    requires Has(Commit(s, grants, now), g)
    ensures g in grants
  {
    hide Updates, Installed, Remember, Shrinks, StillDesired, Additions;
  }

  /** Over any run: every grant that is held, or about to be, was brought by an earlier reply that was let through. */
  lemma {:induction false} GrantsAreBrought(c: Config, live: map<PoolId, AdmissionLimits>, events: seq<Event>, g: Grant)
    requires Has(Run(c, live, events), g)
    ensures Brought(c, events, g)
    decreases |events|
  {
    hide Step, Has;
    if events == [] {
      NothingHad(c, live, g);
      assert false;
    }
    var n := |events| - 1;
    StepHas(c, Run(c, live, events[..n]), events[n], g);
    if Has(Run(c, live, events[..n]), g) {
      GrantsAreBrought(c, live, events[..n], g);
      BroughtEarlier(c, events, g);
    }
  }

  lemma NothingHad(c: Config, live: map<PoolId, AdmissionLimits>, g: Grant)
    ensures !Has(Initial(c, live), g)
  {
  }

  // ---------- Limits say what the grants say ----------

  /** Every grant that is held, or about to be, says what is live. */
  ghost predicate Mirrored(s: AgentState) {
    forall g: Grant | Has(s, g) :: g.pool in s.live && SaysTheSame(s.live[g.pool], g)
  }

  lemma StepMirrors(c: Config, s: AgentState, e: Event)
    requires Inv(c, s) && Mirrored(s)
    ensures Mirrored(Step(c, s, e))
  {
    hide Step, Has, SaysTheSame, Inv;
    forall g: Grant | Has(Step(c, s, e), g)
      ensures g.pool in Step(c, s, e).live && SaysTheSame(Step(c, s, e).live[g.pool], g)
    {
      StepMirrorsOne(c, s, e, g);
    }
  }

  lemma StepMirrorsOne(c: Config, s: AgentState, e: Event, g: Grant)
    requires Inv(c, s) && Mirrored(s) && Has(Step(c, s, e), g)
    ensures var t := Step(c, s, e); g.pool in t.live && SaysTheSame(t.live[g.pool], g)
  {
    hide Has, SaysTheSame, Inv, Parsed, OnPollReply, OnTimer, OnAckReply, OnPublished, OnRejectionAcked;
    StepHas(c, s, e, g);
    match e
    case PollReply(d, topologyAccepted, now) => ReplyMirrors(c, s, d, topologyAccepted, now, g);
    case TimerFired(now) => TimerMirrors(c, s, now, g);
    case _ =>
      OthersKeepLimits(c, s, e);
      assert Has(s, g);
  }

  lemma ReplyMirrors(c: Config, s: AgentState, d: DesiredState, topologyAccepted: bool, now: int, g: Grant)
    requires Mirrored(s) && Has(OnPollReply(c, s, d, topologyAccepted, now), g)
    ensures var t := OnPollReply(c, s, d, topologyAccepted, now);
            g.pool in t.live && SaysTheSame(t.live[g.pool], g)
  {
    hide Parsed, OnPollReply, Commit, Accepted, FirstReject, Updates, Has, SaysTheSame, Installed, SomeDue;
    ReplyKinds(c, s, d, topologyAccepted, now);
    if Commits(c, s, d, topologyAccepted, now) {
      CommitHas(Fenced(s, d, now), d.grants, now, g);
      var i :| 0 <= i < |d.grants| && d.grants[i] == g;
      CommittedLimits(c, s.live, s.fallbacks, d, i);
      CommitLive(Fenced(s, d, now), d.grants, now);
    } else {
      SameHas(s, OnPollReply(c, s, d, topologyAccepted, now), g);
    }
  }

  lemma CommitLive(s: AgentState, grants: seq<Grant>, now: int)
    ensures Commit(s, grants, now).live == Installed(s.live, Updates(s.live, s.fallbacks, grants))
  {
    hide Updates, Installed, Remember, Shrinks, StillDesired, Additions;
  }

  lemma TimerMirrors(c: Config, s: AgentState, now: int, g: Grant)
    requires Inv(c, s) && Mirrored(s) && Has(OnTimer(s, now), g)
    ensures var t := OnTimer(s, now); g.pool in t.live && SaysTheSame(t.live[g.pool], g)
  {
    hide OnTimer, Inv, SaysTheSame, Has, HoldsNothing, FewerHeld;
    TimerLetsGo(s, now);
    TimerHas(s, now, g);
    if !s.armed {
      FiringUnset(s, now);
    } else if Step(c, s, TimerFired(now)).halted {
      TimerThrowsExactly(c, s, now);
    } else {
      TimerClosesExactly(c, s, now, g.pool);
      StillHad(c, s, OnTimer(s, now), g);
    }
  }

  /** A grant that is still had is not one that was let go. */
  lemma StillHad(c: Config, s: AgentState, t: AgentState, g: Grant)
    requires Inv(c, s) && Has(t, g) && FewerHeld(s, t)
    ensures g.pool in s.grants ==> g.pool in t.grants
  {
    hide Origins, Tables, Targets, Ledger, Watched, Matches;
  }

  lemma {:induction false} RunMirrors(c: Config, live: map<PoolId, AdmissionLimits>, events: seq<Event>)
    requires AllWellFormed(live)
    ensures Mirrored(Run(c, live, events))
    decreases |events|
  {
    hide Step, Has, SaysTheSame;
    if events == [] {
      forall g: Grant
        ensures !Has(Initial(c, live), g)
      {
        NothingHad(c, live, g);
      }
    } else {
      var n := |events| - 1;
      RunMirrors(c, live, events[..n]);
      RunInv(c, live, events[..n]);
      StepMirrors(c, Run(c, live, events[..n]), events[n]);
    }
  }

  /**
   * Over any run, a held grant is one that an earlier reply brought for this instance and this managed
   * pool, with an end after its beginning; and what is live there is what it says, at its revision.
   */
  lemma HeldGrants(c: Config, live: map<PoolId, AdmissionLimits>, events: seq<Event>, p: PoolId)
    requires AllWellFormed(live) && p in Run(c, live, events).grants
    ensures var s, g := Run(c, live, events), Run(c, live, events).grants[p];
            && Brought(c, events, g)
            && g.instanceId == c.instanceId && g.pool == p && p in c.managed && g.issuedAt < g.expiresAt
            && p in s.live && s.live[p].revision == g.revision && SaysTheSame(s.live[p], g)
  {
    hide Run, SaysTheSame, Parsed;
    var s := Run(c, live, events);
    var g := s.grants[p];
    assert Has(s, g);
    RunInv(c, live, events);
    RunMirrors(c, live, events);
    GrantsAreBrought(c, live, events, g);
    HeldIsManaged(c, s, p);
    var k :| 0 <= k < |events| && events[k].PollReply? && Parsed(c, events[k].desired)
             && g in events[k].desired.grants;
    ParsedIsOurs(c, events[k].desired, g);
  }

  lemma HeldIsManaged(c: Config, s: AgentState, p: PoolId)
    requires Inv(c, s) && p in s.grants
    ensures p in c.managed && s.grants[p].pool == p && p in s.live && s.live[p].revision == s.grants[p].revision
  {
  }

  lemma ParsedIsOurs(c: Config, d: DesiredState, g: Grant)
    requires Parsed(c, d) && g in d.grants
    ensures g.instanceId == c.instanceId && g.issuedAt < g.expiresAt && g.controllerEpoch == d.controllerEpoch
  {
    var i :| 0 <= i < |d.grants| && d.grants[i] == g;
    assert GrantParsed(c, d.grants[i], d.controllerEpoch);
  }

  // ---------- Grants become held ----------

  /** What a step makes of the grant held for a pool. */
  lemma GrantLife(c: Config, s: AgentState, e: Event, p: PoolId)
    requires Inv(c, s) && p in s.live
    ensures var t := Step(c, s, e);
            Find(t.grants, p) ==
              match e
              case PollReply(d, topologyAccepted, now) =>
                if !Commits(c, s, d, topologyAccepted, now) then Find(s.grants, p)
                else if d.grants != [] && d.grants[0].pool == p then Some(d.grants[0])
                else None
              case AckReply(_) =>
                if s.phase.Committing? && s.phase.rest != [] && s.phase.rest[0].pool == p then Some(s.phase.rest[0])
                else Find(s.grants, p)
              case TimerFired(now) =>
                if s.armed && !t.halted && p in s.grants && Due(s.clock, s.grants[p], now) then None
                else Find(s.grants, p)
              case _ => Find(s.grants, p)
  {
    hide OnPollReply, OnTimer, Inv, Complete, Commits, Retire, AckTarget, Due;
    match e
    case PollReply(d, topologyAccepted, now) =>
      ReplyKinds(c, s, d, topologyAccepted, now);
      CommitGrantsAre(Fenced(s, d, now), d.grants, now);
      hide Commit;
    case TimerFired(now) => TimerGrants(c, s, now, p);
    case _ =>
  }

  lemma CommitGrantsAre(s: AgentState, grants: seq<Grant>, now: int)
    ensures Commit(s, grants, now).grants == if grants == [] then map[] else map[grants[0].pool := grants[0]]
  {
    hide Updates, Installed, Remember, Shrinks, StillDesired, Additions;
  }

  lemma TimerGrants(c: Config, s: AgentState, now: int, p: PoolId)
    requires Inv(c, s) && p in s.live
    ensures var t := OnTimer(s, now);
            Find(t.grants, p) ==
              if s.armed && !t.halted && p in s.grants && Due(s.clock, s.grants[p], now) then None
              else Find(s.grants, p)
  {
    hide OnTimer, Inv, HoldsNothing, Due;
    if !s.armed {
      FiringUnset(s, now);
    } else if OnTimer(s, now).halted {
      TimerThrowsExactly(c, s, now);
    } else {
      TimerClosesExactly(c, s, now, p);
    }
  }

  function AllAcked(s: AgentState, oks: seq<bool>): AgentState
    decreases |oks|
  {
    if oks == [] then s else AllAcked(OnAckReply(s, oks[0]), oks[1..])
  }

  /** Once every acknowledgement is over, delivered or not, every grant of the commit is held. */
  lemma {:induction false} AcksHoldAll(s: AgentState, oks: seq<bool>)
    requires s.phase.Committing? && |oks| == |s.phase.rest| + 1 && DistinctGrants(s.phase.rest)
    ensures var t := AllAcked(s, oks);
            && t.phase == Publishing && t.live == s.live
            && (forall g <- s.phase.rest :: g.pool in t.grants && t.grants[g.pool] == g)
            && (forall p <- s.grants | !Granted(s.phase.rest, p) :: p in t.grants && t.grants[p] == s.grants[p])
    decreases |oks|
  {
    hide AckTarget;
    var t, rest := OnAckReply(s, oks[0]), s.phase.rest;
    if rest != [] {
      AcksHoldAll(t, oks[1..]);
      assert rest == [rest[0]] + rest[1..];
      assert !Granted(rest[1..], rest[0].pool);
      assert Granted(rest, rest[0].pool);
    } else {
      assert oks[1..] == [];
    }
  }
}
