/**
 * What drain evidence is for: a target is set whenever some work that was allowed no longer is, and
 * once it is met the work left on the replica, as its statistics count it, is allowed again.
 */
module DrainLaws {
  import opened Wrappers
  import opened Sums
  import opened Limits
  import opened Stats
  import opened Demand
  import opened Drain
  import RoutingBuilder

  // ---------- When a target is set ----------

  /** What classes use or may claim: their use, or their floor if that is larger. */
  ghost function SlotsClaimed(t: ClassTable, used: map<ClassId, int>): map<ClassId, int> {
    map id | id in t && id in used :: Max(used[id], t[id].protectedConcurrent.GetOr(0))
  }

  ghost function TokensClaimed(t: ClassTable, used: map<ClassId, int>): map<ClassId, int> {
    map id | id in t && id in used :: Max(used[id], t[id].protectedInFlightTokens.GetOr(0))
  }

  predicate UnderSlotCeilings(t: ClassTable, used: map<ClassId, int>) {
    forall id <- t :: id in used && (t[id].maxConcurrent.Some? ==> used[id] <= t[id].maxConcurrent.value)
  }

  predicate UnderTokenCeilings(t: ClassTable, used: map<ClassId, int>) {
    forall id <- t :: id in used && (t[id].maxInFlightTokens.Some? ==> used[id] <= t[id].maxInFlightTokens.value)
  }

  /**
   * A target is set exactly when the slots shrink, when a token budget shrinks or is new, or when some
   * class has a higher floor or a lower or new ceiling than before.
   */
  lemma TargetSetExactly(current: AdmissionLimits, desired: AdmissionLimits, classes: Option<ClassTable>)
    ensures DrainTargetOf(current, desired, classes).Some? <==>
              || desired.maxConcurrent < current.maxConcurrent
              || (desired.tokenBudget.Some?
                  && (current.tokenBudget.Some? ==>
                        desired.tokenBudget.value.budget < current.tokenBudget.value.budget))
              || (current.admissionClasses.Some? && classes.Some?
                  && exists id <- classes.value ::
                       id in current.admissionClasses.value
                       && Tighter(current.admissionClasses.value[id], classes.value[id]))
  {
    hide Sum;
    if current.admissionClasses.Some? && classes.Some? {
      ClassTargetSet(current.admissionClasses.value, classes.value, desired.maxConcurrent, BudgetOf(desired));
      hide ClassTargetOf;
    }
  }

  /** A higher floor, or a lower or new ceiling. */
  predicate Tighter(was: ClassLimits, now: ClassLimits) {
    || now.protectedConcurrent.GetOr(0) > was.protectedConcurrent.GetOr(0)
    || now.protectedInFlightTokens.GetOr(0) > was.protectedInFlightTokens.GetOr(0)
    || (now.maxConcurrent.Some? && (was.maxConcurrent.Some? ==> now.maxConcurrent.value < was.maxConcurrent.value))
    || (now.maxInFlightTokens.Some?
        && (was.maxInFlightTokens.Some? ==> now.maxInFlightTokens.value < was.maxInFlightTokens.value))
  }

  lemma ClassTargetSet(before: ClassTable, after: ClassTable, maxConcurrent: int, budget: Option<int>)
    ensures ClassTargetOf(before, after, maxConcurrent, budget).Some? <==>
              exists id <- after :: id in before && Tighter(before[id], after[id])
  {
    hide Sum;
    var common := Common(before, after);
    forall id <- after | id in before
      ensures id in common && common[id] == after[id]
    {
    }
    if id :| id in after && id in before && Tighter(before[id], after[id]) {
      assert id in common;
    }
  }

  /**
   * A target asks for the shared slots exactly when some class has a higher slot floor than before, and
   * for the shared tokens exactly when some class has a higher token floor; and together with the floors
   * they make up the envelope.
   */
  lemma PotsAskedExactly(current: AdmissionLimits, desired: AdmissionLimits, classes: Option<ClassTable>)
    requires SameShape(current, desired.(admissionClasses := classes))
    requires WellFormed(current) && WellFormed(desired.(admissionClasses := classes))
    requires DrainTargetOf(current, desired, classes).Some?
    requires DrainTargetOf(current, desired, classes).value.admissionClasses.Some?
    ensures var t := DrainTargetOf(current, desired, classes).value.admissionClasses.value;
            var before, after := current.admissionClasses.value, classes.value;
            && t.classes == after
            && (t.sharedMaxConcurrent.Some? <==>
                  exists id <- after ::
                    after[id].protectedConcurrent.GetOr(0) > before[id].protectedConcurrent.GetOr(0))
            && (t.sharedTokenBudget.Some? <==>
                  exists id <- after ::
                    after[id].protectedInFlightTokens.GetOr(0) > before[id].protectedInFlightTokens.GetOr(0))
            && (t.sharedMaxConcurrent.Some? ==>
                  t.sharedMaxConcurrent.value + Sum(ConcurrentFloors(after)) == desired.maxConcurrent)
            && (t.sharedTokenBudget.Some? ==>
                  && desired.tokenBudget.Some?
                  && t.sharedTokenBudget.value + Sum(TokenFloors(after)) == desired.tokenBudget.value.budget)
  {
    hide Sum, AnyConcurrentFloorRose, AnyTokenFloorRose, AnyCeilingShrank, ClassLimitsOk;
    var before, after := current.admissionClasses.value, classes.value;
    assert Common(before, after) == after;
    RoseExactly(before, after);
    if desired.tokenBudget.None? {
      NoTokenFloors(before);
      NoTokenFloors(after);
    }
  }

  lemma NoTokenFloors(t: ClassTable)
    requires forall id <- t :: ClassLimitsOk(t[id], false)
    ensures forall id <- t :: t[id].protectedInFlightTokens.None?
  {
  }

  lemma RoseExactly(before: ClassTable, after: ClassTable)
    requires before.Keys == after.Keys
    ensures AnyConcurrentFloorRose(before, after) <==>
              exists id <- after :: after[id].protectedConcurrent.GetOr(0) > before[id].protectedConcurrent.GetOr(0)
    ensures AnyTokenFloorRose(before, after) <==>
              exists id <- after ::
                after[id].protectedInFlightTokens.GetOr(0) > before[id].protectedInFlightTokens.GetOr(0)
  {
  }

  /**
   * Without a target there is nothing to drain: whatever the classes use, if it was within the old
   * slots, floors and ceilings it is within the new ones.
   */
  lemma NoTargetNoSlotsToDrain(current: AdmissionLimits, desired: AdmissionLimits, before: ClassTable,
                               after: ClassTable, used: map<ClassId, int>)
    requires current.admissionClasses == Some(before) && before.Keys == after.Keys == used.Keys
    requires DrainTargetOf(current, desired, Some(after)).None?
    requires Sum(SlotsClaimed(before, used)) <= current.maxConcurrent && UnderSlotCeilings(before, used)
    ensures Sum(SlotsClaimed(after, used)) <= desired.maxConcurrent && UnderSlotCeilings(after, used)
  {
    TargetSetExactly(current, desired, Some(after));
    hide Sum, DrainTargetOf;
    assert forall id <- after :: !Tighter(before[id], after[id]);
    SumLe(SlotsClaimed(after, used), SlotsClaimed(before, used));
  }

  lemma NoTargetNoTokensToDrain(current: AdmissionLimits, desired: AdmissionLimits, before: ClassTable,
                                after: ClassTable, used: map<ClassId, int>)
    requires current.admissionClasses == Some(before) && before.Keys == after.Keys == used.Keys
    requires current.tokenBudget.Some? && desired.tokenBudget.Some?
    requires DrainTargetOf(current, desired, Some(after)).None?
    requires Sum(TokensClaimed(before, used)) <= current.tokenBudget.value.budget && UnderTokenCeilings(before, used)
    ensures Sum(TokensClaimed(after, used)) <= desired.tokenBudget.value.budget && UnderTokenCeilings(after, used)
  {
    TargetSetExactly(current, desired, Some(after));
    hide Sum, DrainTargetOf;
    assert forall id <- after :: !Tighter(before[id], after[id]);
    SumLe(TokensClaimed(after, used), TokensClaimed(before, used));
  }

  /** And without classes, whatever is in flight. */
  lemma NoTargetNothingToDrain(current: AdmissionLimits, desired: AdmissionLimits, classes: Option<ClassTable>,
                               inFlight: int, tokens: int)
    requires DrainTargetOf(current, desired, classes).None?
    ensures inFlight <= current.maxConcurrent ==> inFlight <= desired.maxConcurrent
    ensures desired.tokenBudget.Some? ==>
              && current.tokenBudget.Some?
              && (tokens <= current.tokenBudget.value.budget ==> tokens <= desired.tokenBudget.value.budget)
  {
    TargetSetExactly(current, desired, classes);
  }

  // ---------- When it is met ----------

  /** What a published class says is what the statistics say. */
  predicate SaysOfClass(p: AdmissionClassDemandSnapshot, id: ClassId, s: ClassStats, hasBudget: bool) {
    && p.admissionClass == id
    && p.inFlight == s.inFlight
    && p.protectedConcurrent == s.limits.protectedConcurrent.GetOr(0)
    && p.protectedConcurrentInUse == s.protectedConcurrentInUse
    && p.borrowedConcurrent == s.borrowedConcurrent
    && p.maxConcurrent == s.limits.maxConcurrent
    && p.inFlightTokens == (if hasBudget then Some(s.inFlightTokens) else None)
    && p.protectedInFlightTokens == (if hasBudget then Some(s.limits.protectedInFlightTokens.GetOr(0)) else None)
    && p.protectedTokensInUse == (if hasBudget then Some(s.protectedTokensInUse) else None)
    && p.borrowedInFlightTokens == (if hasBudget then Some(s.borrowedInFlightTokens) else None)
    && p.maxInFlightTokens == (if hasBudget then s.limits.maxInFlightTokens else None)
  }

  /** A capture publishes every class once, field by field as the statistics have it. */
  lemma PublishedClass(published: seq<AdmissionClassDemandSnapshot>, previous: map<ClassId, Counters>,
                       stamps: map<ClassId, int>, now: int, hasBudget: bool, classes: map<ClassId, ClassStats>)
    requires ClassSnapshotsOk(published, previous, stamps, now, hasBudget, classes)
    ensures ByClass(published).Keys == classes.Keys
    ensures forall id <- classes :: SaysOfClass(ByClass(published)[id], id, classes[id], hasBudget)
  {
    hide ClassSnapshot, ByClass, SaysOfClass;
    forall id: ClassId
      ensures id in classes <==> id in ByClass(published)
      ensures id in classes ==> SaysOfClass(ByClass(published)[id], id, classes[id], hasBudget)
    {
      if id in classes {
        assert id in ClassIds(published);
        var i :| 0 <= i < |published| && published[i].admissionClass == id;
        ByClassHas(published, i);
      }
      if id in ByClass(published) {
        ByClassNamed(published, id);
        var i :| 0 <= i < |published| && published[i] == ByClass(published)[id];
        assert ClassIds(published)[i] == id;
        ClassSnapshotSays(previous, stamps, now, hasBudget, classes, id);
      }
    }
  }

  lemma ClassSnapshotSays(previous: map<ClassId, Counters>, stamps: map<ClassId, int>, now: int, hasBudget: bool,
                          classes: map<ClassId, ClassStats>, id: ClassId)
    requires id in classes
    ensures SaysOfClass(ClassSnapshot(previous, stamps, now, hasBudget, classes, id), id, classes[id], hasBudget)
  {
  }

  lemma {:induction false} ByClassHas(published: seq<AdmissionClassDemandSnapshot>, i: nat)
    requires i < |published|
    ensures published[i].admissionClass in ByClass(published)
  {
    var n := |published| - 1;
    if i < n {
      assert published[..n][i] == published[i];
      ByClassHas(published[..n], i);
    }
  }

  lemma {:induction false} ByClassNamed(published: seq<AdmissionClassDemandSnapshot>, id: ClassId)
    requires id in ByClass(published)
    ensures ByClass(published)[id] in published && ByClass(published)[id].admissionClass == id
  {
    var n := |published| - 1;
    assert published == published[..n] + [published[n]];
    if id != published[n].admissionClass {
      ByClassNamed(published[..n], id);
    }
  }

  lemma SaysAccounted(p: AdmissionClassDemandSnapshot, id: ClassId, s: ClassStats, hasBudget: bool)
    requires SaysOfClass(p, id, s, hasBudget) && ClassAccounted(s, hasBudget)
    ensures Drain.Accounted(p)
  {
  }

  // ---------- The statistics themselves ----------

  ghost function SlotsUsed(cs: map<ClassId, ClassStats>): map<ClassId, int> {
    map id <- cs :: cs[id].inFlight
  }

  ghost function TokensUsed(cs: map<ClassId, ClassStats>): map<ClassId, int> {
    map id <- cs :: cs[id].inFlightTokens
  }

  /** What the pool and its classes use is within what the target stands for. */
  ghost predicate Fits(stats: PoolStats, t: DrainTarget) {
    && stats.inFlight <= t.maxConcurrent
    && (t.requireTokenEvidence ==>
          stats.tokenBudget.Some? && t.tokenBudget.Some?
          && stats.tokenBudget.value.inFlightTokens <= t.tokenBudget.value)
    && (t.admissionClasses.Some? ==>
          stats.admissionClasses.Some?
          && ClassesFit(stats.admissionClasses.value.classes, t.admissionClasses.value, t, stats.tokenBudget.Some?))
  }

  ghost predicate ClassesFit(cs: map<ClassId, ClassStats>, c: ClassDrainTarget, t: DrainTarget, hasBudget: bool) {
    && cs.Keys == c.classes.Keys
    && (c.sharedMaxConcurrent.Some? ==> Sum(SlotsClaimed(c.classes, SlotsUsed(cs))) <= t.maxConcurrent)
    && (c.sharedTokenBudget.Some? ==>
          hasBudget && t.tokenBudget.Some? && Sum(TokensClaimed(c.classes, TokensUsed(cs))) <= t.tokenBudget.value)
    && UnderSlotCeilings(c.classes, SlotsUsed(cs))
    && (hasBudget ==> UnderTokenCeilings(c.classes, TokensUsed(cs)))
  }

  /** The published class table, as the check looks at it, and the statistics behind it. */
  ghost predicate Shows(m: map<ClassId, AdmissionClassDemandSnapshot>, cs: map<ClassId, ClassStats>, hasBudget: bool) {
    && m.Keys == cs.Keys
    && forall id <- cs :: SaysOfClass(m[id], id, cs[id], hasBudget) && Drain.Accounted(m[id])
  }

  lemma CaptureShows(snapshot: PoolDemandSnapshot, base: Checkpoints, sofar: Checkpoints, p: PoolId, stats: PoolStats,
                     now: int)
    requires SnapshotOk(snapshot, base, sofar, p, stats, now) && RoutingBuilder.Accounted(stats)
    ensures snapshot.admissionClasses.Some? == stats.admissionClasses.Some?
    ensures stats.admissionClasses.Some? ==>
              var published, cs := snapshot.admissionClasses.value, stats.admissionClasses.value.classes;
              && |published| == |cs| && cs != map[]
              && Shows(ByClass(published), cs, stats.tokenBudget.Some?)
              && forall i | 0 <= i < |published| :: Drain.Accounted(published[i])
  {
    hide ClassSnapshot, ByClass, SaysOfClass, ClassAccounted, Drain.Accounted, RoutingBuilder.SharedAccounted,
         WellFormed;
    if stats.admissionClasses.Some? {
      var published, cs := snapshot.admissionClasses.value, stats.admissionClasses.value.classes;
      var stamps := Lookup(sofar.classLastRequestAt, p, map[]);
      var previous := Lookup(base.classes, p, map[]);
      PublishedClass(published, previous, stamps, now, stats.tokenBudget.Some?, cs);
      forall id <- cs
        ensures Drain.Accounted(ByClass(published)[id])
      {
        SaysAccounted(ByClass(published)[id], id, cs[id], stats.tokenBudget.Some?);
      }
      forall i | 0 <= i < |published|
        ensures Drain.Accounted(published[i])
      {
        var id := published[i].admissionClass;
        ClassSnapshotSays(previous, stamps, now, stats.tokenBudget.Some?, cs, id);
        SaysAccounted(published[i], id, cs[id], stats.tokenBudget.Some?);
      }
      assert |published| == |cs.Keys|;
    }
  }

  lemma SameSlotClaims(c: ClassDrainTarget, m: map<ClassId, AdmissionClassDemandSnapshot>,
                       cs: map<ClassId, ClassStats>)
    requires m.Keys == cs.Keys == c.classes.Keys && forall id <- cs :: m[id].inFlight == cs[id].inFlight
    ensures SlotClaims(c, m) == SlotsClaimed(c.classes, SlotsUsed(cs))
  {
  }

  lemma SameTokenClaims(c: ClassDrainTarget, m: map<ClassId, AdmissionClassDemandSnapshot>,
                        cs: map<ClassId, ClassStats>)
    requires m.Keys == cs.Keys == c.classes.Keys
    requires forall id <- cs :: m[id].inFlightTokens == Some(cs[id].inFlightTokens)
    ensures TokenClaims(c, m) == TokensClaimed(c.classes, TokensUsed(cs))
  {
  }

  lemma SameClaims(c: ClassDrainTarget, m: map<ClassId, AdmissionClassDemandSnapshot>, cs: map<ClassId, ClassStats>,
                   hasBudget: bool)
    requires Shows(m, cs, hasBudget) && m.Keys == c.classes.Keys
    ensures SlotClaims(c, m) == SlotsClaimed(c.classes, SlotsUsed(cs))
    ensures hasBudget ==> TokenClaims(c, m) == TokensClaimed(c.classes, TokensUsed(cs))
  {
    hide Drain.Accounted, SlotClaims, TokenClaims, SlotsClaimed, TokensClaimed, SlotsUsed, TokensUsed;
    SameSlotClaims(c, m, cs);
    if hasBudget {
      SameTokenClaims(c, m, cs);
    }
  }

  /**
   * A target that published demand meets is met by the replica's own statistics: the work left, floors
   * included, is within the envelope, and every class is under its new ceilings.
   */
  lemma MetMeansFits(snapshot: PoolDemandSnapshot, base: Checkpoints, sofar: Checkpoints, p: PoolId, stats: PoolStats,
                     now: int, t: DrainTarget)
    requires SnapshotOk(snapshot, base, sofar, p, stats, now) && RoutingBuilder.Accounted(stats)
    requires TargetSound(t) && TargetReady(snapshot, t)
    ensures Fits(stats, t)
  {
    hide ClassSnapshotsOk, ByClass, ClassTargetReady, RoutingBuilder.ClassesAccounted, WellFormed, Shows, Sum;
    if t.admissionClasses.Some? {
      hide RoutingBuilder.Accounted;
      CaptureShows(snapshot, base, sofar, p, stats, now);
      RetirementIsSound(snapshot, t);
      var c, m := t.admissionClasses.value, ByClass(snapshot.admissionClasses.value);
      ClassesFitWhenMet(stats.admissionClasses.value.classes, c, m, t, stats.tokenBudget.Some?, snapshot);
    }
  }

  lemma ClassesFitWhenMet(cs: map<ClassId, ClassStats>, c: ClassDrainTarget,
                          m: map<ClassId, AdmissionClassDemandSnapshot>, t: DrainTarget, hasBudget: bool,
                          snapshot: PoolDemandSnapshot)
    requires Shows(m, cs, hasBudget) && m.Keys == c.classes.Keys && cs != map[]
    requires snapshot.admissionClasses.Some? && m == ByClass(snapshot.admissionClasses.value)
    requires ClassTargetReady(snapshot.admissionClasses.value, c)
    requires c.sharedMaxConcurrent.Some? ==> Sum(SlotClaims(c, m)) <= t.maxConcurrent
    requires c.sharedTokenBudget.Some? ==> t.tokenBudget.Some? && Sum(TokenClaims(c, m)) <= t.tokenBudget.value
    ensures ClassesFit(cs, c, t, hasBudget)
  {
    hide ByClass, Sum, Drain.Accounted, SlotClaims, TokenClaims, SlotsClaimed, TokensClaimed, BorrowedSlots,
         BorrowedTokens, ClassReady, SaysOfClass, NeedsTokens, SlotsUsed, TokensUsed;
    SameClaims(c, m, cs, hasBudget);
    forall id <- c.classes
      ensures UnderOne(c.classes[id], cs[id], hasBudget)
      ensures c.sharedTokenBudget.Some? ==> hasBudget
    {
      OneFits(c, id, m[id], cs[id], hasBudget);
    }
    AllUnder(c.classes, cs, hasBudget);
    var some :| some in cs;
    assert some in c.classes;
    hide Shows, UnderSlotCeilings, UnderTokenCeilings, UnderOne;
  }

  predicate UnderOne(l: ClassLimits, s: ClassStats, hasBudget: bool) {
    && (l.maxConcurrent.Some? ==> s.inFlight <= l.maxConcurrent.value)
    && (hasBudget && l.maxInFlightTokens.Some? ==> s.inFlightTokens <= l.maxInFlightTokens.value)
  }

  lemma AllUnder(t: ClassTable, cs: map<ClassId, ClassStats>, hasBudget: bool)
    requires t.Keys == cs.Keys && forall id <- t :: UnderOne(t[id], cs[id], hasBudget)
    ensures UnderSlotCeilings(t, SlotsUsed(cs)) && (hasBudget ==> UnderTokenCeilings(t, TokensUsed(cs)))
  {
  }

  lemma OneFits(c: ClassDrainTarget, id: ClassId, p: AdmissionClassDemandSnapshot, s: ClassStats, hasBudget: bool)
    requires id in c.classes && SaysOfClass(p, id, s, hasBudget) && ClassReady(p, c.classes[id], NeedsTokens(c, id))
    ensures UnderOne(c.classes[id], s, hasBudget) && (c.sharedTokenBudget.Some? ==> hasBudget)
  {
  }

  /** The limits of the class are those the target stands for, of tokens where the target looks at them. */
  predicate SameAs(was: ClassLimits, now: ClassLimits, tokens: bool) {
    && was.protectedConcurrent.GetOr(0) == now.protectedConcurrent.GetOr(0)
    && was.maxConcurrent == now.maxConcurrent
    && (tokens ==>
          && was.protectedInFlightTokens.GetOr(0) == now.protectedInFlightTokens.GetOr(0)
          && was.maxInFlightTokens == now.maxInFlightTokens)
  }

  /** A snapshot taken under other class limits does not meet the target. */
  lemma MetMeansInstalled(snapshot: PoolDemandSnapshot, base: Checkpoints, sofar: Checkpoints, p: PoolId,
                          stats: PoolStats, now: int, t: DrainTarget, id: ClassId)
    requires SnapshotOk(snapshot, base, sofar, p, stats, now) && RoutingBuilder.Accounted(stats)
    requires TargetReady(snapshot, t) && t.admissionClasses.Some? && id in t.admissionClasses.value.classes
    ensures var c := t.admissionClasses.value;
            && stats.admissionClasses.Some? && id in stats.admissionClasses.value.classes
            && SameAs(stats.admissionClasses.value.classes[id].limits, c.classes[id],
                      c.sharedTokenBudget.Some? || c.classes[id].maxInFlightTokens.Some?)
  {
    hide SnapshotOk, RoutingBuilder.Accounted, ByClass, Drain.Accounted, BorrowedSlots, BorrowedTokens, Sum;
    CaptureShows(snapshot, base, sofar, p, stats, now);
    var c, m := t.admissionClasses.value, ByClass(snapshot.admissionClasses.value);
    assert id in m && ClassReady(m[id], c.classes[id], NeedsTokens(c, id));
    assert SaysOfClass(m[id], id, stats.admissionClasses.value.classes[id], stats.tokenBudget.Some?);
  }

  /** The classes have the limits the target asks for. */
  ghost predicate HaveLimits(cs: map<ClassId, ClassStats>, t: ClassTable, hasBudget: bool) {
    cs.Keys == t.Keys && forall id <- cs :: cs[id].limits == t[id] && ClassLimitsOk(t[id], hasBudget)
  }

  /** The pots and the floors of the target make up its envelope. */
  ghost predicate MakeUp(c: ClassDrainTarget, t: DrainTarget) {
    && (c.sharedMaxConcurrent.Some? ==>
          c.sharedMaxConcurrent.value + Sum(ConcurrentFloors(c.classes)) == t.maxConcurrent)
    && (c.sharedTokenBudget.Some? ==>
          t.tokenBudget.Some? && c.sharedTokenBudget.value + Sum(TokenFloors(c.classes)) == t.tokenBudget.value)
  }

  lemma ClassesMetWhenFit(cs: map<ClassId, ClassStats>, c: ClassDrainTarget, t: DrainTarget, hasBudget: bool,
                          published: seq<AdmissionClassDemandSnapshot>)
    requires Shows(ByClass(published), cs, hasBudget) && |published| == |cs|
    requires HaveLimits(cs, c.classes, hasBudget) && MakeUp(c, t) && ClassesFit(cs, c, t, hasBudget)
    ensures ClassTargetReady(published, c)
  {
    hide ByClass, Sum, Drain.Accounted, SlotClaims, TokenClaims, SlotsClaimed, TokensClaimed, BorrowedSlots,
         BorrowedTokens, ConcurrentFloors, TokenFloors, ClassReady, SaysOfClass, NeedsTokens, ClassLimitsOk;
    var m := ByClass(published);
    assert |cs.Keys| == |c.classes.Keys|;
    forall id <- c.classes
      ensures ClassReady(m[id], c.classes[id], NeedsTokens(c, id))
    {
      assert id in SlotsUsed(cs) && id in TokensUsed(cs);
      OneReady(c, id, m[id], cs[id], hasBudget);
    }
    hide UnderSlotCeilings, UnderTokenCeilings, SlotsUsed, TokensUsed;
    SameClaims(c, m, cs, hasBudget);
    SlotClaimsBound(c, m);
    if c.sharedTokenBudget.Some? {
      TokenClaimsBound(c, m);
    }
  }

  lemma OneReady(c: ClassDrainTarget, id: ClassId, p: AdmissionClassDemandSnapshot, s: ClassStats, hasBudget: bool)
    requires id in c.classes && SaysOfClass(p, id, s, hasBudget)
    requires s.limits == c.classes[id] && ClassLimitsOk(s.limits, hasBudget)
    requires c.sharedTokenBudget.Some? ==> hasBudget
    requires UnderOne(c.classes[id], s, hasBudget)
    ensures ClassReady(p, c.classes[id], NeedsTokens(c, id))
  {
  }

  /**
   * Drained demand is recognised. Once the granted classes are live, published demand meets the target
   * exactly when the statistics it was taken from are within what the target stands for.
   */
  lemma MetExactlyWhenFits(snapshot: PoolDemandSnapshot, base: Checkpoints, sofar: Checkpoints, p: PoolId,
                           stats: PoolStats, now: int, current: AdmissionLimits, desired: AdmissionLimits,
                           classes: Option<ClassTable>)
    requires SnapshotOk(snapshot, base, sofar, p, stats, now) && RoutingBuilder.Accounted(stats)
    requires SameShape(current, desired.(admissionClasses := classes))
    requires WellFormed(current) && WellFormed(desired.(admissionClasses := classes))
    requires DrainTargetOf(current, desired, classes).Some?
    requires stats.limits == desired.(admissionClasses := classes)
             && stats.admissionClasses.Some? == classes.Some?
    ensures var t := DrainTargetOf(current, desired, classes).value;
            TargetReady(snapshot, t) <==> Fits(stats, t)
  {
    var t := DrainTargetOf(current, desired, classes).value;
    TargetOfIsSound(current, desired, classes);
    if TargetReady(snapshot, t) {
      MetMeansFits(snapshot, base, sofar, p, stats, now, t);
    }
    if Fits(stats, t) && t.admissionClasses.Some? {
      CaptureShows(snapshot, base, sofar, p, stats, now);
      TargetMakesUp(current, desired, classes);
      GrantedAreLive(stats);
      ClassesMetWhenFit(stats.admissionClasses.value.classes, t.admissionClasses.value, t, stats.tokenBudget.Some?,
                        snapshot.admissionClasses.value);
    }
    hide SnapshotOk, RoutingBuilder.Accounted, WellFormed, DrainTargetOf, ClassTargetReady, ClassesFit;
  }

  lemma TargetMakesUp(current: AdmissionLimits, desired: AdmissionLimits, classes: Option<ClassTable>)
    requires SameShape(current, desired.(admissionClasses := classes))
    requires WellFormed(current) && WellFormed(desired.(admissionClasses := classes))
    requires DrainTargetOf(current, desired, classes).Some?
    requires DrainTargetOf(current, desired, classes).value.admissionClasses.Some?
    ensures var t := DrainTargetOf(current, desired, classes).value;
            classes == Some(t.admissionClasses.value.classes) && MakeUp(t.admissionClasses.value, t)
  {
    hide ClassTargetOf, WellFormed, Sum, ConcurrentFloors, TokenFloors;
    PotsAskedExactly(current, desired, classes);
  }

  lemma GrantedAreLive(stats: PoolStats)
    requires RoutingBuilder.Accounted(stats) && stats.admissionClasses.Some? && stats.limits.admissionClasses.Some?
    ensures HaveLimits(stats.admissionClasses.value.classes, stats.limits.admissionClasses.value,
                       stats.tokenBudget.Some?)
  {
    hide Sum, RoutingBuilder.SharedAccounted, WellFormed;
  }
}
