/**
 * Coalesced shrinking of a streaming request's token hold: `src/progressive-reconciliation.ts`,
 * with the counters `run` keeps around it in `src/pools.ts`. The bulkhead is assumed to hold
 * `remainingOutputTokens + safetyMarginTokens` after a report that names them.
 */
module Progressive {
  import opened Wrappers

  datatype Reservation = Reservation(reserved: nat, maxOutput: nat)

  datatype Settings = Settings(reservation: Option<Reservation>, updateStep: nat, safetyMargin: nat)

  /**
   * One report: the cumulative output, and what the bulkhead says it holds when it is told nothing
   * about the future.
   */
  datatype Usage = Usage(output: nat, heldOtherwise: int)

  /** The closure's variables, and this request's share of the pool's counters. */
  datatype Progress = Progress(
    lastAppliedRemaining: Option<int>,
    lastHeld: Option<int>,
    reports: nat,
    updates: nat,
    coalesced: nat,
    earlyReleasedTokens: int)

  function Start(c: Settings): Progress {
    Progress(None, if c.reservation.None? then None else Some(c.reservation.value.reserved), 0, 0, 0, 0)
  }

  function CandidateRemaining(c: Settings, output: nat): int
    requires c.reservation.Some?
  {
    Max(0, c.reservation.value.maxOutput - output - c.safetyMargin)
  }

  predicate Applies(c: Settings, s: Progress, output: nat)
    requires c.reservation.Some?
  {
    s.lastAppliedRemaining.None? || s.lastAppliedRemaining.value - CandidateRemaining(c, output) >= c.updateStep
  }

  function Report(c: Settings, s: Progress, u: Usage): Progress {
    if c.reservation.None? then
      s.(lastHeld := Some(u.heldOtherwise), reports := s.reports + 1, coalesced := s.coalesced + 1)
    else if Applies(c, s, u.output) then
      var remaining := CandidateRemaining(c, u.output);
      var released := if s.lastHeld.Some? then Max(0, s.lastHeld.value - (remaining + c.safetyMargin)) else 0;
      Progress(Some(remaining), Some(remaining + c.safetyMargin), s.reports + 1, s.updates + 1, s.coalesced,
               s.earlyReleasedTokens + released)
    else
      s.(lastHeld := Some(s.lastAppliedRemaining.value + c.safetyMargin), reports := s.reports + 1,
         coalesced := s.coalesced + 1)
  }

  function Run(c: Settings, usages: seq<Usage>): Progress {
    if usages == [] then Start(c)
    else Report(c, Run(c, usages[..|usages| - 1]), usages[|usages| - 1])
  }

  // ---------- The reconciler ----------

  class ProgressiveUsageReconciler {
    const settings: Settings
    var lastAppliedRemaining: Option<int>
    var lastHeld: Option<int>
    var reports: nat
    var updates: nat
    var coalesced: nat
    var earlyReleasedTokens: int
    ghost var history: seq<Usage>

    ghost function State(): Progress
      reads this
    {
      Progress(lastAppliedRemaining, lastHeld, reports, updates, coalesced, earlyReleasedTokens)
    }

    ghost predicate Valid()
      reads this
    {
      State() == Run(settings, history)
    }

    constructor (settings: Settings)
      ensures Valid() && this.settings == settings && history == []
    {
      this.settings := settings;
      lastAppliedRemaining := None;
      lastHeld := if settings.reservation.None? then None else Some(settings.reservation.value.reserved);
      reports, updates, coalesced, earlyReleasedTokens, history := 0, 0, 0, 0, [];
    }

    /** `reportUsage`, and the counters around it. */
    method ReportUsage(u: Usage) returns (applied: bool, releasedTokens: int)
      requires Valid()
      modifies this
      ensures Valid() && history == old(history) + [u]
      ensures State() == Report(settings, old(State()), u)
      ensures applied <==> updates == old(updates) + 1
      ensures releasedTokens == earlyReleasedTokens - old(earlyReleasedTokens)
    {
      reports := reports + 1;
      applied, releasedTokens := false, 0;
      if settings.reservation.None? {
        lastHeld := Some(u.heldOtherwise);
      } else {
        var candidateRemaining := Max(0, settings.reservation.value.maxOutput - u.output - settings.safetyMargin);
        applied := lastAppliedRemaining.None? || lastAppliedRemaining.value - candidateRemaining >= settings.updateStep;
        var remainingOutputTokens := if applied then candidateRemaining else lastAppliedRemaining.value;
        var previousHeld, held := lastHeld, remainingOutputTokens + settings.safetyMargin;
        lastHeld := Some(held);
        if applied {
          lastAppliedRemaining := Some(candidateRemaining);
        }
        if applied && previousHeld.Some? {
          releasedTokens := Max(0, previousHeld.value - held);
        }
      }
      if applied {
        updates := updates + 1;
      } else {
        coalesced := coalesced + 1;
      }
      earlyReleasedTokens := earlyReleasedTokens + releasedTokens;
      history := history + [u];
      assert history[..|history| - 1] == old(history);
    }
  }

  // ---------- The hold is tight ----------

  /** The hold the output so far calls for. */
  function Wanted(c: Settings, output: nat): int
    requires c.reservation.Some?
  {
    Max(c.safetyMargin, c.reservation.value.maxOutput - output)
  }

  /** After a report there is a hold, and it is the wanted hold of some report up to now. */
  lemma {:induction false} HoldIsOneWanted(c: Settings, usages: seq<Usage>)
    requires c.reservation.Some? && usages != []
    ensures var s := Run(c, usages);
            && s.lastAppliedRemaining.Some? && s.lastHeld == Some(s.lastAppliedRemaining.value + c.safetyMargin)
            && exists i | 0 <= i < |usages| :: s.lastHeld.value == Wanted(c, usages[i].output)
    decreases |usages|
  {
    var n := |usages| - 1;
    if Applies(c, Run(c, usages[..n]), usages[n].output) {
      assert Run(c, usages).lastHeld.value == Wanted(c, usages[n].output);
    } else {
      HoldIsOneWanted(c, usages[..n]);
      var i :| 0 <= i < n && Run(c, usages[..n]).lastHeld.value == Wanted(c, usages[..n][i].output);
      assert Run(c, usages).lastHeld.value == Wanted(c, usages[i].output);
    }
  }

  /** The hold never rises, and always stays less than one step above the wanted one. */
  lemma HoldIsTight(c: Settings, usages: seq<Usage>, u: Usage)
    requires c.reservation.Some? && c.updateStep > 0
    ensures var now := Run(c, usages + [u]).lastHeld;
            && now.Some?
            && now.value < Wanted(c, u.output) + c.updateStep
            && (usages != [] ==> Run(c, usages).lastHeld.Some? && now.value <= Run(c, usages).lastHeld.value)
  {
    assert (usages + [u])[..|usages|] == usages;
    if usages != [] {
      HoldIsOneWanted(c, usages);
    }
  }

  /** For cumulative usage the hold is never below the wanted one either. */
  lemma HoldIsEnough(c: Settings, usages: seq<Usage>)
    requires c.reservation.Some? && usages != []
    requires forall i, j | 0 <= i < j < |usages| :: usages[i].output <= usages[j].output
    ensures Run(c, usages).lastHeld.Some? && Wanted(c, usages[|usages| - 1].output) <= Run(c, usages).lastHeld.value
  {
    HoldIsOneWanted(c, usages);
  }

  /**
   * In general the hold is enough after a report exactly when the report does not call for a floor
   * above the one last applied: the first report never does, and cumulative usage never does.
   */
  lemma HoldIsEnoughExactly(c: Settings, usages: seq<Usage>, u: Usage)
    requires c.reservation.Some? && c.updateStep > 0
    ensures var s, t := Run(c, usages), Run(c, usages + [u]);
            && t.lastHeld.Some?
            && (Wanted(c, u.output) <= t.lastHeld.value <==>
                  s.lastAppliedRemaining.None? || CandidateRemaining(c, u.output) <= s.lastAppliedRemaining.value)
  {
    assert (usages + [u])[..|usages|] == usages;
  }

  /** A report that takes back part of the output leaves the hold too small; one that takes back less may not. */
  lemma FallingUsageIsUnderheld()
    ensures var c := Settings(Some(Reservation(100, 100)), 10, 10);
            && Run(c, [Usage(50, 0), Usage(0, 0)]).lastHeld == Some(50) && Wanted(c, 0) == 100
            && Run(c, [Usage(50, 0), Usage(55, 0), Usage(52, 0)]).lastHeld == Some(50) && Wanted(c, 52) == 48
  {
    var c := Settings(Some(Reservation(100, 100)), 10, 10);
    var first, falls, dips := [Usage(50, 0)], [Usage(50, 0), Usage(0, 0)], [Usage(50, 0), Usage(55, 0), Usage(52, 0)];
    assert first[..0] == [] && falls[..1] == first && dips[..2][..1] == first;
    assert Run(c, first) == Report(c, Start(c), Usage(50, 0));
    assert Run(c, falls) == Report(c, Run(c, first), Usage(0, 0));
    assert Run(c, dips[..2]) == Report(c, Run(c, first), Usage(55, 0));
    assert Run(c, dips) == Report(c, Run(c, dips[..2]), Usage(52, 0));
  }

  // ---------- Updates are few, and what they release adds up ----------

  /** Every report is an update or is coalesced; and each update after the first pays for itself with a whole step. */
  lemma {:induction false} UpdatesAreFew(c: Settings, usages: seq<Usage>)
    requires c.updateStep > 0
    ensures var s := Run(c, usages);
            && s.reports == |usages| == s.updates + s.coalesced
            && (c.reservation.None? ==> s.updates == 0)
            && (c.reservation.Some? ==>
                  && (s.lastAppliedRemaining.None? <==> s.updates == 0)
                  && (usages != [] ==> s.updates >= 1)
                  && (s.updates >= 1 ==>
                        && 0 <= s.lastAppliedRemaining.value
                        && (s.updates - 1) * c.updateStep + s.lastAppliedRemaining.value
                           <= Max(0, c.reservation.value.maxOutput - c.safetyMargin)))
    decreases |usages|
  {
    if usages != [] {
      var n := |usages| - 1;
      UpdatesAreFew(c, usages[..n]);
      var s := Run(c, usages[..n]);
      if c.reservation.Some? && Applies(c, s, usages[n].output) && s.updates >= 1 {
        assert s.updates * c.updateStep == (s.updates - 1) * c.updateStep + c.updateStep;
      }
    }
  }

  /** At most one update, and one more for every whole step between the largest output and the margin. */
  lemma UpdateBound(c: Settings, usages: seq<Usage>)
    requires c.reservation.Some? && c.updateStep > 0
    ensures Run(c, usages).updates <= 1 + Max(0, c.reservation.value.maxOutput - c.safetyMargin) / c.updateStep
  {
    UpdatesAreFew(c, usages);
    var s := Run(c, usages);
    var room := Max(0, c.reservation.value.maxOutput - c.safetyMargin);
    if s.updates >= 1 {
      WholeSteps(s.updates - 1, c.updateStep, room);
    }
  }

  lemma WholeSteps(k: nat, step: nat, room: nat)
    requires step > 0 && k * step <= room
    ensures k <= room / step
  {
    var q := room / step;
    assert room < (q + 1) * step;
    assert k * step < (q + 1) * step;
  }

  /**
   * What has been released early is exactly what the hold has come down by, from the larger of the
   * reservation and the first hold.
   */
  lemma {:induction false} ReleasesAddUp(c: Settings, usages: seq<Usage>)
    requires c.reservation.Some? && c.updateStep > 0 && usages != []
    ensures var s, reserved, first := Run(c, usages), c.reservation.value.reserved, Wanted(c, usages[0].output);
            && s.lastHeld.Some?
            && s.earlyReleasedTokens == Max(reserved, first) - s.lastHeld.value
            && (s.earlyReleasedTokens == reserved - s.lastHeld.value <==> first <= reserved)
    decreases |usages|
  {
    var n := |usages| - 1;
    if n == 0 {
      assert usages[..n] == [];
      assert Run(c, usages[..n]) == Start(c);
    } else {
      ReleasesAddUp(c, usages[..n]);
      HoldIsOneWanted(c, usages[..n]);
      HoldIsTight(c, usages[..n], usages[n]);
      assert usages == usages[..n] + [usages[n]];
      assert usages[..n][0] == usages[0];
    }
  }

  /** A first hold above the reservation: five tokens more are held than reserved, and none were released. */
  lemma MarginAboveReservation()
    ensures var c := Settings(Some(Reservation(15, 10)), 10, 20);
            var s := Run(c, [Usage(0, 0)]);
            && Wanted(c, 0) == 20 > c.reservation.value.reserved
            && s.lastHeld == Some(20)
            && s.earlyReleasedTokens == 0 != c.reservation.value.reserved - s.lastHeld.value
  {
    assert [Usage(0, 0)][..0] == [];
  }

  /** Without a reservation every report is passed on as it is: the hold is what the bulkhead last said. */
  lemma WithoutReservation(c: Settings, usages: seq<Usage>)
    requires c.reservation.None? && usages != []
    ensures var s := Run(c, usages);
            && s.lastHeld == Some(usages[|usages| - 1].heldOtherwise)
            && s.updates == 0 && s.lastAppliedRemaining.None?
  {
    NothingAppliedWithout(c, usages);
  }

  lemma {:induction false} NothingAppliedWithout(c: Settings, usages: seq<Usage>)
    requires c.reservation.None?
    ensures var s := Run(c, usages);
            s.updates == 0 && s.coalesced == |usages| && s.lastAppliedRemaining.None? && s.earlyReleasedTokens == 0
    decreases |usages|
  {
    if usages != [] {
      NothingAppliedWithout(c, usages[..|usages| - 1]);
    }
  }
}
