/**
 * Demand over a run of heartbeats. Heartbeats wait in the queue that `#heartbeatTail` forms
 * (`src/latchflo.ts`), so between one capture and its reply no other capture happens.
 */
module DemandProtocol {
  import opened Wrappers
  import opened Limits
  import opened Stats
  import opened Demand

  datatype Field = Admitted | Rejected | BudgetRejected | ConcurrencyRejected

  /** One counter of one pool (`cls` is `None`) or of one of its classes. */
  datatype Key = Key(pool: PoolId, cls: Option<ClassId>, field: Field)

  function Value(c: Counters, f: Field): nat {
    match f
    case Admitted => c.admitted
    case Rejected => c.rejected
    case BudgetRejected => c.budgetRejected
    case ConcurrencyRejected => c.concurrencyRejected
  }

  /** What the checkpoints record for a counter; zero if they have never seen it. */
  function Read(c: Checkpoints, k: Key): nat {
    match k.cls
    case None => Value(Lookup(c.pools, k.pool, ZERO_CHECKPOINT), k.field)
    case Some(id) => Value(Lookup(Lookup(c.classes, k.pool, map[]), id, ZERO_CHECKPOINT), k.field)
  }

  /** The event count a counter stands for; a reason that never occurred counts zero. */
  function Counted(s: LlmStats, f: Field): nat {
    match f
    case Admitted => s.admitted
    case Rejected => s.rejected
    case BudgetRejected => Lookup(s.rejectedByReason, "budget_limit", 0)
    case ConcurrencyRejected => Lookup(s.rejectedByReason, "concurrency_limit", 0)
  }

  /** The event count of a pool, or of one of its classes; a class it does not have counts zero. */
  function CountOf(s: PoolStats, cls: Option<ClassId>, f: Field): nat {
    if cls.None? then Counted(s.llm, f)
    else if s.admissionClasses.Some? && cls.value in s.admissionClasses.value.classes then
      Counted(s.admissionClasses.value.classes[cls.value].llm, f)
    else 0
  }

  /** A capture records exactly the event counts of every managed pool and of its classes. */
  lemma {:induction false} CapturedCounts(base: Checkpoints, pools: seq<PoolId>, stats: map<PoolId, PoolStats>,
                                          now: int, k: Key)
    requires (forall p <- pools :: p in stats) && k.pool in pools
    ensures Read(Captured(base, pools, stats, now), k) == CountOf(stats[k.pool], k.cls, k.field)
    decreases |pools|
  {
    hide CountOf, Read, AddPool;
    var n := |pools| - 1;
    assert forall p <- pools[..n] :: p in pools;
    AddedCounts(base, Captured(base, pools[..n], stats, now), pools[n], stats[pools[n]], now, k);
    if k.pool != pools[n] {
      assert k.pool in pools[..n];
      CapturedCounts(base, pools[..n], stats, now, k);
    }
  }

  lemma AddedCounts(base: Checkpoints, sofar: Checkpoints, p: PoolId, s: PoolStats, now: int, k: Key)
    ensures Read(AddPool(base, sofar, p, s, now), k) ==
              if k.pool == p then CountOf(s, k.cls, k.field) else Read(sofar, k)
  {
    hide ClassStamps, Active, Deltas;
  }

  // ---------- What one heartbeat reports for a counter ----------

  function InClasses(classes: seq<AdmissionClassDemandSnapshot>, id: ClassId, f: Field): nat {
    if classes == [] then 0
    else
      var n := |classes| - 1;
      InClasses(classes[..n], id, f) + if classes[n].admissionClass == id then Value(classes[n].recent, f) else 0
  }

  function InSnapshot(s: PoolDemandSnapshot, k: Key): nat {
    if s.pool != k.pool then 0
    else
      match k.cls
      case None => Value(s.recent, k.field)
      case Some(id) => if s.admissionClasses.None? then 0 else InClasses(s.admissionClasses.value, id, k.field)
  }

  function InReport(report: seq<PoolDemandSnapshot>, k: Key): nat {
    if report == [] then 0
    else
      var n := |report| - 1;
      InReport(report[..n], k) + InSnapshot(report[n], k)
  }

  function Reported(reports: seq<seq<PoolDemandSnapshot>>, k: Key): nat {
    if reports == [] then 0
    else
      var n := |reports| - 1;
      Reported(reports[..n], k) + InReport(reports[n], k)
  }

  lemma {:induction false} InClassesAbsent(classes: seq<AdmissionClassDemandSnapshot>, id: ClassId, f: Field)
    requires id !in ClassIds(classes)
    ensures InClasses(classes, id, f) == 0
  {
    if classes != [] {
      var n := |classes| - 1;
      assert ClassIds(classes) == ClassIds(classes[..n]) + [classes[n].admissionClass];
      InClassesAbsent(classes[..n], id, f);
    }
  }

  lemma {:induction false} InClassesOnce(classes: seq<AdmissionClassDemandSnapshot>, i: nat, f: Field)
    requires i < |classes|
    requires forall a, b | 0 <= a < b < |classes| :: classes[a].admissionClass != classes[b].admissionClass
    ensures InClasses(classes, classes[i].admissionClass, f) == Value(classes[i].recent, f)
  {
    var n := |classes| - 1;
    if i == n {
      InClassesAbsent(classes[..n], classes[n].admissionClass, f);
    } else {
      InClassesOnce(classes[..n], i, f);
    }
  }

  lemma ClassReport(s: seq<AdmissionClassDemandSnapshot>, previous: map<ClassId, Counters>, stamps: map<ClassId, int>,
                    now: int,
                    hasBudget: bool, classes: map<ClassId, ClassStats>, id: ClassId, f: Field)
    requires ClassSnapshotsOk(s, previous, stamps, now, hasBudget, classes)
    ensures InClasses(s, id, f) ==
              Delta(Value(Lookup(ClassCounters(classes), id, ZERO_CHECKPOINT), f),
                    Value(Lookup(previous, id, ZERO_CHECKPOINT), f))
  {
    hide ClassSnapshot;
    var ids := ClassIds(s);
    if id in classes {
      assert id in ids;
      var i :| 0 <= i < |ids| && ids[i] == id;
      forall a, b | 0 <= a < b < |s|
        ensures s[a].admissionClass != s[b].admissionClass
      {
        assert ids[a] != ids[b];
      }
      InClassesOnce(s, i, f);
    } else {
      InClassesAbsent(s, id, f);
    }
  }

  /** The snapshot of one pool carries, counter by counter, the increase over the checkpoint. */
  lemma SnapshotReports(s: PoolDemandSnapshot, base: Checkpoints, sofar: Checkpoints, p: PoolId, stats: PoolStats,
                        now: int, k: Key)
    requires SnapshotOk(s, base, sofar, p, stats, now)
    ensures InSnapshot(s, k) ==
              if k.pool != p then 0
              else Delta(Read(AddPool(base, sofar, p, stats, now), k), Read(base, k))
  {
    hide ClassSnapshotsOk, ClassStamps;
    if k.pool == p && k.cls.Some? && stats.admissionClasses.Some? {
      ClassReport(s.admissionClasses.value, Lookup(base.classes, p, map[]), Lookup(sofar.classLastRequestAt, p, map[]),
                  now,
                  stats.tokenBudget.Some?, stats.admissionClasses.value.classes, k.cls.value, k.field);
    }
  }

  ghost predicate Distinct(pools: seq<PoolId>) {
    forall i, j | 0 <= i < j < |pools| :: pools[i] != pools[j]
  }

  lemma SnapshotsSplit(report: seq<PoolDemandSnapshot>, base: Checkpoints, pools: seq<PoolId>,
                       stats: map<PoolId, PoolStats>, now: int)
    requires SnapshotsOk(report, base, pools, stats, now) && pools != []
    ensures |report| == |pools|
    ensures var n := |pools| - 1;
            && SnapshotsOk(report[..n], base, pools[..n], stats, now)
            && pools[n] in stats
            && (forall p <- pools[..n] :: p in stats)
            && SnapshotOk(report[n], base, Captured(base, pools[..n], stats, now), pools[n], stats[pools[n]], now)
  {
    hide SnapshotOk, Captured;
    var n := |pools| - 1;
    forall i | 0 <= i < n
      ensures pools[..n][..i] == pools[..i]
    {
    }
  }

  /** Every counter, of any pool and class, known or not: the report carries exactly its increase. */
  lemma {:induction false} ReportIsDelta(report: seq<PoolDemandSnapshot>, base: Checkpoints, pools: seq<PoolId>,
                                         stats: map<PoolId, PoolStats>, now: int, k: Key)
    requires Distinct(pools)
    requires SnapshotsOk(report, base, pools, stats, now)
    requires forall p <- pools :: p in stats
    ensures InReport(report, k) == Delta(Read(Captured(base, pools, stats, now), k), Read(base, k))
    ensures k.pool !in pools ==> InReport(report, k) == 0
    decreases |pools|
  {
    hide SnapshotOk, AddPool, SnapshotsOk, InSnapshot, Read;
    if pools == [] {
      NoReport(report, base, stats, now, k);
    } else {
      var n := |pools| - 1;
      var before := pools[..n];
      assert pools == before + [pools[n]];
      SnapshotsSplit(report, base, pools, stats, now);
      ReportIsDelta(report[..n], base, before, stats, now, k);
      SnapshotReports(report[n], base, Captured(base, before, stats, now), pools[n], stats[pools[n]], now, k);
      if k.pool != pools[n] {
        OtherPool(base, Captured(base, before, stats, now), pools[n], stats[pools[n]], now, k);
      } else {
        assert k.pool !in before;
      }
    }
  }

  lemma NoReport(report: seq<PoolDemandSnapshot>, base: Checkpoints, stats: map<PoolId, PoolStats>, now: int, k: Key)
    requires SnapshotsOk(report, base, [], stats, now)
    ensures report == [] && InReport(report, k) == 0 == Delta(Read(Captured(base, [], stats, now), k), Read(base, k))
  {
  }

  lemma OtherPool(base: Checkpoints, sofar: Checkpoints, p: PoolId, s: PoolStats, now: int, k: Key)
    requires k.pool != p
    ensures Read(AddPool(base, sofar, p, s, now), k) == Read(sofar, k)
  {
    hide ClassStamps;
  }

  // ---------- The heartbeat queue ----------

  datatype Protocol = Protocol(
    accepted: Checkpoints,
    pending: Option<Checkpoints>,
    queued: nat,
    sending: Option<seq<PoolDemandSnapshot>>,
    /** Every report that was accepted, and the checkpoints before and after each. */
    reports: seq<seq<PoolDemandSnapshot>>,
    history: seq<Checkpoints>)

  datatype Event =
    | Queue
    | Start(stats: map<PoolId, PoolStats>, now: int, report: seq<PoolDemandSnapshot>)
    | Reply(ok: bool)

  const NOTHING := Checkpoints(map[], map[], map[], map[])

  const INITIAL := Protocol(NOTHING, None, 0, None, [], [NOTHING])

  /**
   * A heartbeat starts only when none is being sent. It captures, and fails at once if a managed
   * pool has no statistics. A reply commits the pending capture or leaves everything for later.
   */
  ghost function Step(pools: seq<PoolId>, s: Protocol, e: Event): Protocol {
    match e
    case Queue => s.(queued := s.queued + 1)
    case Start(stats, now, report) =>
      if s.sending.Some? || s.queued == 0 then s
      else if exists p <- pools :: p !in stats then s.(queued := s.queued - 1)
      else if SnapshotsOk(report, s.accepted, pools, stats, now) then
        s.(queued := s.queued - 1, pending := Some(Captured(s.accepted, pools, stats, now)), sending := Some(report))
      else s
    case Reply(ok) =>
      if s.sending.None? then s
      else if ok && s.pending.Some? then
        s.(accepted := s.pending.value, pending := None, sending := None,
           reports := s.reports + [s.sending.value], history := s.history + [s.pending.value])
      else s.(sending := None)
  }

  ghost function Run(pools: seq<PoolId>, events: seq<Event>): Protocol {
    if events == [] then INITIAL
    else Step(pools, Run(pools, events[..|events| - 1]), events[|events| - 1])
  }

  /** The value a counter had reached each time it was found restarted. */
  ghost function Forgotten(history: seq<Checkpoints>, k: Key): nat {
    if |history| < 2 then 0
    else
      var n := |history| - 1;
      Forgotten(history[..n], k) + if Read(history[n], k) < Read(history[n - 1], k) then Read(history[n - 1], k) else 0
  }

  /** A reply always meets the capture of the heartbeat it answers. */
  ghost predicate Paired(s: Protocol) {
    s.sending.Some? ==>
      && s.pending.Some?
      && forall k: Key :: InReport(s.sending.value, k) == Delta(Read(s.pending.value, k), Read(s.accepted, k))
  }

  ghost predicate Conserving(s: Protocol) {
    && s.history != []
    && s.history[|s.history| - 1] == s.accepted
    && forall k: Key :: Reported(s.reports, k) == Read(s.accepted, k) + Forgotten(s.history, k)
  }

  lemma StepConserves(pools: seq<PoolId>, s: Protocol, e: Event)
    requires Distinct(pools) && Paired(s) && Conserving(s)
    ensures Paired(Step(pools, s, e)) && Conserving(Step(pools, s, e))
  {
    hide Read, InReport, SnapshotsOk, Captured;
    var t := Step(pools, s, e);
    match e
    case Queue =>
    case Start(stats, now, report) =>
      if t.sending != s.sending {
        forall k: Key
          ensures InReport(report, k) == Delta(Read(t.pending.value, k), Read(s.accepted, k))
        {
          ReportIsDelta(report, s.accepted, pools, stats, now, k);
        }
      }
    case Reply(ok) =>
      if s.sending.Some? && ok {
        forall k: Key
          ensures Reported(t.reports, k) == Read(t.accepted, k) + Forgotten(t.history, k)
        {
          AcceptedConserves(s, k);
        }
      }
      hide Reported, Forgotten;
  }

  /** One accepted heartbeat, for one counter. */
  lemma AcceptedConserves(s: Protocol, k: Key)
    requires Paired(s) && Conserving(s) && s.sending.Some?
    ensures Reported(s.reports + [s.sending.value], k) ==
              Read(s.pending.value, k) + Forgotten(s.history + [s.pending.value], k)
  {
    hide Read, InReport, Reported, Forgotten;
    ReportedMore(s.reports, s.sending.value, k);
    ForgottenMore(s.history, s.pending.value, k);
    assert Reported(s.reports, k) == Read(s.accepted, k) + Forgotten(s.history, k);
  }

  lemma ForgottenMore(history: seq<Checkpoints>, next: Checkpoints, k: Key)
    requires history != []
    ensures var last := Read(history[|history| - 1], k);
            Forgotten(history + [next], k) == Forgotten(history, k) + if Read(next, k) < last then last else 0
  {
    hide Read;
    assert (history + [next])[..|history|] == history;
  }

  /**
   * Conservation. Over any run of queued, failing and accepted heartbeats, and for every counter of
   * every pool and class, what the accepted heartbeats reported adds up to the counter at the
   * last accepted capture, plus what it had reached before each restart.
   */
  lemma {:induction false} RunConserves(pools: seq<PoolId>, events: seq<Event>)
    requires Distinct(pools)
    ensures Paired(Run(pools, events)) && Conserving(Run(pools, events))
  {
    if events != [] {
      RunConserves(pools, events[..|events| - 1]);
      StepConserves(pools, Run(pools, events[..|events| - 1]), events[|events| - 1]);
    }
  }

  /** From one accepted capture to the next, the counter did not fall. */
  ghost predicate NeverFell(history: seq<Checkpoints>, k: Key) {
    forall i | 0 <= i < |history| - 1 :: Read(history[i], k) <= Read(history[i + 1], k)
  }

  lemma {:induction false} NothingForgotten(history: seq<Checkpoints>, k: Key)
    ensures Forgotten(history, k) == 0 <==> NeverFell(history, k)
  {
    hide Read;
    if |history| >= 2 {
      var n := |history| - 1;
      var before := history[..n];
      NothingForgotten(before, k);
      if NeverFell(history, k) {
        assert forall i | 0 <= i < n - 1 :: Read(history[i], k) <= Read(history[i + 1], k);
        assert NeverFell(before, k);
      }
      if NeverFell(before, k) && Read(history[n - 1], k) <= Read(history[n], k) {
        assert forall i | 0 <= i < n - 1 :: Read(before[i], k) <= Read(before[i + 1], k);
        assert NeverFell(history, k);
      }
    }
  }

  /** Reports add up to the counter itself exactly when it never fell between accepted captures. */
  lemma ExactlyOnce(pools: seq<PoolId>, events: seq<Event>, k: Key)
    requires Distinct(pools)
    ensures var s := Run(pools, events);
            Reported(s.reports, k) == Read(s.accepted, k) <==> NeverFell(s.history, k)
  {
    hide Read, Reported;
    RunConserves(pools, events);
    NothingForgotten(Run(pools, events).history, k);
  }

  // ---------- Why the queue is needed ----------

  /** The same protocol without the queue: several heartbeats may be on the wire. */
  datatype Unqueued = Unqueued(
    accepted: Checkpoints,
    pending: Option<Checkpoints>,
    sending: seq<seq<PoolDemandSnapshot>>,
    reports: seq<seq<PoolDemandSnapshot>>)

  datatype UnqueuedEvent =
    | Begin(counters: map<PoolId, PoolStats>, at: int, snapshots: seq<PoolDemandSnapshot>)
    | Answer(index: nat, accepts: bool)

  /** The reporter has one pending capture, so an accepted reply commits the latest one, whichever it answers. */
  ghost function UnqueuedStep(pools: seq<PoolId>, s: Unqueued, e: UnqueuedEvent): Unqueued {
    match e
    case Begin(stats, now, report) =>
      if (forall p <- pools :: p in stats) && SnapshotsOk(report, s.accepted, pools, stats, now) then
        s.(pending := Some(Captured(s.accepted, pools, stats, now)), sending := s.sending + [report])
      else s
    case Answer(i, ok) =>
      if i >= |s.sending| then s
      else
        var rest := s.sending[..i] + s.sending[i + 1..];
        if ok then
          s.(accepted := s.pending.GetOr(s.accepted), pending := None, sending := rest,
             reports := s.reports + [s.sending[i]])
        else s.(sending := rest)
  }

  ghost function UnqueuedRun(pools: seq<PoolId>, s: Unqueued, events: seq<UnqueuedEvent>): Unqueued {
    if events == [] then s
    else UnqueuedStep(pools, UnqueuedRun(pools, s, events[..|events| - 1]), events[|events| - 1])
  }

  /** Two heartbeats overlap; the first is accepted, and then the second is or is not. */
  ghost function Overlap(a: map<PoolId, PoolStats>, b: map<PoolId, PoolStats>,
                         reportA: seq<PoolDemandSnapshot>, reportB: seq<PoolDemandSnapshot>,
                         both: bool): seq<UnqueuedEvent>
  {
    [Begin(a, 0, reportA), Begin(b, 1, reportB), Answer(0, true), Answer(0, both)]
  }

  lemma RunOneMore(pools: seq<PoolId>, s: Unqueued, events: seq<UnqueuedEvent>, e: UnqueuedEvent)
    ensures UnqueuedRun(pools, s, events + [e]) == UnqueuedStep(pools, UnqueuedRun(pools, s, events), e)
  {
    assert (events + [e])[..|events|] == events;
  }

  lemma Begins(pools: seq<PoolId>, s: Unqueued, stats: map<PoolId, PoolStats>, now: int,
               report: seq<PoolDemandSnapshot>)
    requires (forall p <- pools :: p in stats) && SnapshotsOk(report, s.accepted, pools, stats, now)
    ensures UnqueuedStep(pools, s, Begin(stats, now, report)) ==
            s.(pending := Some(Captured(s.accepted, pools, stats, now)), sending := s.sending + [report])
  {
    hide SnapshotsOk, Captured;
  }

  lemma OverlapRuns(pools: seq<PoolId>, s: Unqueued, a: map<PoolId, PoolStats>, b: map<PoolId, PoolStats>,
                    reportA: seq<PoolDemandSnapshot>, reportB: seq<PoolDemandSnapshot>, both: bool)
    requires s.sending == [] && forall p <- pools :: p in a && p in b
    requires SnapshotsOk(reportA, s.accepted, pools, a, 0) && SnapshotsOk(reportB, s.accepted, pools, b, 1)
    ensures var t := UnqueuedRun(pools, s, Overlap(a, b, reportA, reportB, both));
            && t.accepted == Captured(s.accepted, pools, b, 1)
            && t.reports == s.reports + [reportA] + if both then [reportB] else []
  {
    hide SnapshotsOk, Captured;
    var first, second := Begin(a, 0, reportA), Begin(b, 1, reportB);
    assert UnqueuedRun(pools, s, []) == s;
    hide UnqueuedRun;
    RunOneMore(pools, s, [], first);
    Begins(pools, s, a, 0, reportA);
    var s1 := UnqueuedStep(pools, s, first);
    RunOneMore(pools, s, [first], second);
    Begins(pools, s1, b, 1, reportB);
    var s2 := UnqueuedStep(pools, s1, second);
    assert [] + [first] == [first] && s2.sending == [reportA, reportB];
    RunOneMore(pools, s, [first] + [second], Answer(0, true));
    var s3 := UnqueuedStep(pools, s2, Answer(0, true));
    assert s3.sending == [reportB];
    RunOneMore(pools, s, [first] + [second] + [Answer(0, true)], Answer(0, both));
    assert [first] + [second] + [Answer(0, true)] + [Answer(0, both)] == Overlap(a, b, reportA, reportB, both);
  }

  /**
   * An overlap miscounts. From a state in which reports and accepted counter agree, and for a counter
   * that does not fall, they agree afterwards exactly when nothing happened between the two captures,
   * if the second heartbeat fails (otherwise demand is lost), or before the first, if it is accepted
   * (otherwise demand is reported twice).
   */
  lemma OverlapMiscountsExactly(pools: seq<PoolId>, s: Unqueued, a: map<PoolId, PoolStats>, b: map<PoolId, PoolStats>,
                                reportA: seq<PoolDemandSnapshot>, reportB: seq<PoolDemandSnapshot>, both: bool, k: Key)
    requires Distinct(pools) && s.sending == [] && forall p <- pools :: p in a && p in b
    requires SnapshotsOk(reportA, s.accepted, pools, a, 0) && SnapshotsOk(reportB, s.accepted, pools, b, 1)
    requires Reported(s.reports, k) == Read(s.accepted, k)
    requires Read(s.accepted, k) <= Read(Captured(s.accepted, pools, a, 0), k)
    requires Read(Captured(s.accepted, pools, a, 0), k) <= Read(Captured(s.accepted, pools, b, 1), k)
    ensures var t := UnqueuedRun(pools, s, Overlap(a, b, reportA, reportB, both));
            var x, atA, atB := Read(s.accepted, k), Read(Captured(s.accepted, pools, a, 0), k), Read(t.accepted, k);
            && atB == Read(Captured(s.accepted, pools, b, 1), k)
            && Reported(t.reports, k) == (if both then atB + (atA - x) else atA)
            && (Reported(t.reports, k) == atB <==> if both then atA == x else atA == atB)
  {
    hide SnapshotsOk, Captured, Read, UnqueuedRun, UnqueuedStep, Reported, InReport, Overlap;
    OverlapRuns(pools, s, a, b, reportA, reportB, both);
    ReportIsDelta(reportA, s.accepted, pools, a, 0, k);
    ReportIsDelta(reportB, s.accepted, pools, b, 1, k);
    ReportedMore(s.reports, reportA, k);
    ReportedMore(s.reports + [reportA], reportB, k);
    assert s.reports + [reportA] + [] == s.reports + [reportA];
  }

  lemma ReportedMore(reports: seq<seq<PoolDemandSnapshot>>, report: seq<PoolDemandSnapshot>, k: Key)
    ensures Reported(reports + [report], k) == Reported(reports, k) + InReport(report, k)
  {
    assert (reports + [report])[..|reports|] == reports;
  }

  function OnePool(admitted: nat): PoolStats {
    PoolStats(AdmissionLimits(0, 0, 0, None, None), Enforce, false, 0, 0, None, None, LlmStats(admitted, 0, map[]))
  }

  /** From nothing, with one admission at the first capture and three at the second: one is reported, or four are. */
  lemma OverlapLosesDemand(reportA: seq<PoolDemandSnapshot>, reportB: seq<PoolDemandSnapshot>)
    requires SnapshotsOk(reportA, NOTHING, ["p"], map["p" := OnePool(1)], 0)
    requires SnapshotsOk(reportB, NOTHING, ["p"], map["p" := OnePool(3)], 1)
    ensures var a, b, k := map["p" := OnePool(1)], map["p" := OnePool(3)], Key("p", None, Admitted);
            var first := UnqueuedRun(["p"], Unqueued(NOTHING, None, [], []), Overlap(a, b, reportA, reportB, false));
            var both := UnqueuedRun(["p"], Unqueued(NOTHING, None, [], []), Overlap(a, b, reportA, reportB, true));
            && Read(first.accepted, k) == 3 && Reported(first.reports, k) == 1
            && Read(both.accepted, k) == 3 && Reported(both.reports, k) == 4
  {
    var s, k := Unqueued(NOTHING, None, [], []), Key("p", None, Admitted);
    assert ["p"][..0] == [];
    assert Read(Captured(NOTHING, ["p"], map["p" := OnePool(1)], 0), k) == 1;
    assert Read(Captured(NOTHING, ["p"], map["p" := OnePool(3)], 1), k) == 3;
    hide SnapshotsOk, Captured, UnqueuedRun, Read;
    assert Read(NOTHING, k) == 0 by {
      NothingRead(k);
    }
    OverlapMiscountsExactly(["p"], s, map["p" := OnePool(1)], map["p" := OnePool(3)], reportA, reportB, false, k);
    OverlapMiscountsExactly(["p"], s, map["p" := OnePool(1)], map["p" := OnePool(3)], reportA, reportB, true, k);
  }

  lemma NothingRead(k: Key)
    ensures Read(NOTHING, k) == 0
  {
  }
}
