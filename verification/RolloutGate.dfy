/** `compare_reports`: the checks a candidate must pass before the CRAG flags
    may be enabled. */
module RolloutGate {
  import opened Collections
  import opened Strings
  import opened TraceSnapshot

  datatype CaseResult = CaseResult(
    id: string,
    traceId: Option<string>,
    passed: bool,
    providerFailure: bool,
    requiresCorrection: bool,
    requiresRepair: bool)

  datatype EvalReport = EvalReport(
    totalCases: nat,
    passedCases: nat,
    providerFailureCount: nat,
    providerRetries: nat,
    totalCost: int,
    flags: map<string, string>,
    confusion: map<string, int>,
    cases: seq<CaseResult>)

  datatype Checks = Checks(
    baselineProviderFailuresZero: bool,
    candidateProviderFailuresZero: bool,
    candidateCasesPassed: bool,
    candidateFeaturesEnabled: bool,
    correctionFixturePresent: bool,
    repairFixturePresent: bool,
    requiredCorrectionsExercised: bool,
    requiredRepairsExercised: bool,
    correctionErrorsZero: bool,
    wrongRefusalReduced: bool,
    wrongAnswerNotIncreased: bool,
    refusalTypesCorrect: bool,
    leakageZero: bool,
    latencyWithinBudget: bool,
    costWithinBudget: bool,
    correctionBudget: bool,
    repairBudget: bool,
    retryBudget: bool)

  const MAX_LATENCY_RATIO := 1.25
  const MAX_COST_RATIO := 1.50

  function Outcome(r: EvalReport, name: string): int {
    if name in r.confusion then r.confusion[name] else 0
  }

  function Flag(r: EvalReport, name: string): string {
    if name in r.flags then Fold(r.flags[name]) else ""
  }

  predicate IsProviderFailure(c: CaseResult) { c.providerFailure }

  function CorrectionNeeded(c: CaseResult): Option<Option<string>> {
    if c.requiresCorrection then Some(c.traceId) else None
  }

  function RepairNeeded(c: CaseResult): Option<Option<string>> {
    if c.requiresRepair then Some(c.traceId) else None
  }

  predicate Covered(needed: seq<Option<string>>, ids: seq<string>) {
    forall id :: id in needed ==> id.Some? && id.value in ids
  }

  predicate WithinBudget(baseline: Option<int>, candidate: Option<int>, ratio: real) {
    && baseline.Some? && baseline.value >= 0
    && candidate.Some? && candidate.value >= 0
    && candidate.value as real <= baseline.value as real * ratio
  }

  function CompareReports(
    baselineEval: EvalReport, candidateEval: EvalReport, baseline: SystemMetrics, candidate: SystemMetrics): Checks
  {
    var neededCorrections := FilterMap(CorrectionNeeded, candidateEval.cases);
    var neededRepairs := FilterMap(RepairNeeded, candidateEval.cases);
    var wrongBefore, wrongAfter := Outcome(baselineEval, "wrong_refusal"), Outcome(candidateEval, "wrong_refusal");
    Checks(
      Count(IsProviderFailure, baselineEval.cases) == 0,
      Count(IsProviderFailure, candidateEval.cases) == 0,
      candidateEval.totalCases > 0 && candidateEval.passedCases == candidateEval.totalCases,
      Flag(candidateEval, "crag") == "true" && Flag(candidateEval, "claim_repair") == "true" &&
      Flag(candidateEval, "semantic_cache") == "false",
      neededCorrections != [],
      neededRepairs != [],
      Covered(neededCorrections, candidate.correctionIds),
      Covered(neededRepairs, candidate.repairIds),
      candidate.correctionErrors == 0,
      if wrongBefore > 0 then wrongAfter < wrongBefore else wrongAfter == 0,
      Outcome(candidateEval, "wrong_answer") <= Outcome(baselineEval, "wrong_answer"),
      Outcome(candidateEval, "wrong_refusal_type") == 0,
      Outcome(candidateEval, "leakage") == 0,
      WithinBudget(baseline.latencyP95, candidate.latencyP95, MAX_LATENCY_RATIO),
      WithinBudget(Some(baseline.estimatedCost), Some(candidate.estimatedCost), MAX_COST_RATIO),
      candidate.correctionRate <= 1.0 && candidate.maxCorrections <= 1,
      candidate.repairRate <= 1.0 && candidate.maxRepairs <= 1,
      candidate.retryRate <= 2.0)
  }

  /** `all(checks.values())`. */
  predicate Passed(c: Checks) {
    && c.baselineProviderFailuresZero
    && c.candidateProviderFailuresZero
    && c.candidateCasesPassed
    && c.candidateFeaturesEnabled
    && c.correctionFixturePresent
    && c.repairFixturePresent
    && c.requiredCorrectionsExercised
    && c.requiredRepairsExercised
    && c.correctionErrorsZero
    && c.wrongRefusalReduced
    && c.wrongAnswerNotIncreased
    && c.refusalTypesCorrect
    && c.leakageZero
    && c.latencyWithinBudget
    && c.costWithinBudget
    && c.correctionBudget
    && c.repairBudget
    && c.retryBudget
  }
}
