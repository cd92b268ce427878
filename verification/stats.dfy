/**
 * The statistics one pool publishes. The bulkhead library is not part of this model; the
 * predicates below are what is assumed of the numbers it reports.
 */
module Stats {
  import opened Wrappers
  import opened Sums
  import opened Limits

  datatype AdmissionMode = Enforce | Observe

  datatype Priority = NormalPriority | HighPriority

  /** Monotone event counts of a pool or of one class. */
  datatype LlmStats = LlmStats(admitted: nat, rejected: nat, rejectedByReason: map<string, nat>)

  datatype ClassStats = ClassStats(
    limits: ClassLimits,
    inFlight: int,
    protectedConcurrentInUse: int,
    borrowedConcurrent: int,
    inFlightTokens: int,
    protectedTokensInUse: int,
    borrowedInFlightTokens: int,
    llm: LlmStats)

  datatype TokenStats = TokenStats(budget: int, inFlightTokens: int, available: int)

  datatype SharedStats = SharedStats(
    maxConcurrent: int,
    inFlight: int,
    availableConcurrent: int,
    tokenBudget: Option<TokenStats>)

  datatype ClassesStats = ClassesStats(
    defaultClass: ClassId,
    classes: map<ClassId, ClassStats>,
    shared: SharedStats)

  datatype PoolStats = PoolStats(
    limits: AdmissionLimits,
    mode: AdmissionMode,
    closed: bool,
    inFlight: int,
    pending: int,
    tokenBudget: Option<TokenStats>,
    admissionClasses: Option<ClassesStats>,
    llm: LlmStats)

  // ---------- The accounting equations ----------

  /** How `used` splits into the part a floor protects and the part borrowed beyond it. */
  predicate Split(used: int, floor: int, inUse: int, borrowed: int) {
    && inUse == Min(used, floor)
    && borrowed == Max(0, used - inUse)
  }

  predicate ClassAccounted(c: ClassStats, hasBudget: bool) {
    && SafeNat(c.inFlight)
    && SafeNat(c.inFlightTokens)
    && ClassLimitsOk(c.limits, hasBudget)
    && Split(c.inFlight, c.limits.protectedConcurrent.GetOr(0), c.protectedConcurrentInUse, c.borrowedConcurrent)
    && Split(c.inFlightTokens, c.limits.protectedInFlightTokens.GetOr(0), c.protectedTokensInUse,
             c.borrowedInFlightTokens)
  }

  ghost function Tables(cs: map<ClassId, ClassStats>): ClassTable {
    map id <- cs :: cs[id].limits
  }

  ghost function SlotsInUse(cs: map<ClassId, ClassStats>): map<ClassId, int> {
    map id <- cs :: cs[id].inFlight
  }

  ghost function TokensInUse(cs: map<ClassId, ClassStats>): map<ClassId, int> {
    map id <- cs :: cs[id].inFlightTokens
  }

  ghost function ProtectedSlotsInUse(cs: map<ClassId, ClassStats>): map<ClassId, int> {
    map id <- cs :: cs[id].protectedConcurrentInUse
  }

  ghost function ProtectedTokensInUse(cs: map<ClassId, ClassStats>): map<ClassId, int> {
    map id <- cs :: cs[id].protectedTokensInUse
  }

  /** The shared pot is what the floors leave, and its use is what is not on a floor. */
  predicate SharedPot(total: int, used: int, floors: int, onFloors: int, potMax: int, potUsed: int, potLeft: int) {
    && potMax == Max(0, total - floors)
    && potUsed == Max(0, used - onFloors)
    && potLeft == Max(0, potMax - potUsed)
  }
}
