/** What it means that a candidate passes the rollout gate. */
module GateMeaning {
  import opened Collections
  import opened Strings
  import opened TraceSnapshot
  import opened RolloutGate

  /** How often a report counts an outcome. */
  function Seen(r: EvalReport, name: string): int {
    if name in r.confusion then r.confusion[name] else 0
  }

  predicate Says(r: EvalReport, flag: string, text: string) { flag in r.flags && Fold(r.flags[flag]) == text }

  predicate Exercised(c: CaseResult, ids: seq<string>) { c.traceId.Some? && c.traceId.value in ids }

  /** Every case passed, with both features on and the cache off, and no row of
      either side failed at the provider. */
  predicate CasesSound(b: EvalReport, c: EvalReport) {
    && (forall row :: row in b.cases + c.cases ==> !row.providerFailure)
    && c.totalCases > 0 && c.passedCases == c.totalCases
    && Says(c, "crag", "true") && Says(c, "claim_repair", "true") && Says(c, "semantic_cache", "false")
  }

  /** No leak and no wrong kind of refusal, no more wrong answers than before, and
      fewer wrong refusals if there were any, else none. */
  predicate OutcomesBetter(b: EvalReport, c: EvalReport) {
    && Seen(c, "leakage") == 0 && Seen(c, "wrong_refusal_type") == 0
    && Seen(c, "wrong_answer") <= Seen(b, "wrong_answer")
    && (Seen(b, "wrong_refusal") > 0 ==> Seen(c, "wrong_refusal") < Seen(b, "wrong_refusal"))
    && (Seen(b, "wrong_refusal") <= 0 ==> Seen(c, "wrong_refusal") == 0)
  }

  /** There are cases that require a correction and cases that require a repair,
      and each of them had it, without a failed correction. */
  predicate FeaturesExercised(c: EvalReport, sc: SystemMetrics) {
    && (exists row :: row in c.cases && row.requiresCorrection)
    && (exists row :: row in c.cases && row.requiresRepair)
    && (forall row :: row in c.cases && row.requiresCorrection ==> Exercised(row, sc.correctionIds))
    && (forall row :: row in c.cases && row.requiresRepair ==> Exercised(row, sc.repairIds))
    && sc.correctionErrors == 0
  }

  /** p95 at most 5/4 and cost at most 3/2 of the baseline's, on average at most one
      attempt of a kind and two model retries per query, and no trace twice. */
  predicate WithinLimits(sb: SystemMetrics, sc: SystemMetrics) {
    && sb.latencyP95.Some? && sc.latencyP95.Some? && sb.latencyP95.value >= 0 && sc.latencyP95.value >= 0
    && 4 * sc.latencyP95.value <= 5 * sb.latencyP95.value
    && sb.estimatedCost >= 0 && sc.estimatedCost >= 0 && 2 * sc.estimatedCost <= 3 * sb.estimatedCost
    && sc.correctionRate <= 1.0 && sc.maxCorrections <= 1
    && sc.repairRate <= 1.0 && sc.maxRepairs <= 1
    && sc.retryRate <= 2.0
  }

  predicate Releasable(b: EvalReport, c: EvalReport, sb: SystemMetrics, sc: SystemMetrics) {
    CasesSound(b, c) && OutcomesBetter(b, c) && FeaturesExercised(c, sc) && WithinLimits(sb, sc)
  }

  lemma Required(need: CaseResult -> Option<Option<string>>, cases: seq<CaseResult>, ids: seq<string>)
    requires forall c :: need(c).Some? ==> need(c).value == c.traceId
    ensures FilterMap(need, cases) != [] <==> exists c :: c in cases && need(c).Some?
    ensures Covered(FilterMap(need, cases), ids) <==> forall c :: c in cases && need(c).Some? ==> Exercised(c, ids)
  {
    hide FilterMap;
    var needed := FilterMap(need, cases);
    forall id ensures id in needed <==> exists c :: c in cases && need(c) == Some(id) {
      FilterMapMember(need, cases, id);
    }
    if needed != [] {
      assert needed[0] in needed;
    }
  }

  lemma NoFailures(cases: seq<CaseResult>)
    ensures Count(IsProviderFailure, cases) == 0 <==> forall row :: row in cases ==> !row.providerFailure
  {
    CountZero(IsProviderFailure, cases);
  }

  lemma FlagSays(r: EvalReport, flag: string, text: string)
    requires text != ""
    ensures Flag(r, flag) == text <==> Says(r, flag, text)
  {
  }

  lemma LimitsMean(b: EvalReport, c: EvalReport, sb: SystemMetrics, sc: SystemMetrics)
    ensures var checks := CompareReports(b, c, sb, sc);
            (checks.latencyWithinBudget && checks.costWithinBudget && checks.correctionBudget && checks.repairBudget &&
             checks.retryBudget) <==> WithinLimits(sb, sc)
  {
    hide FilterMap, Count, Covered, Flag, Outcome;
  }

  /** The gate passes exactly the releasable candidates. */
  lemma GatePassesExactly(b: EvalReport, c: EvalReport, sb: SystemMetrics, sc: SystemMetrics)
    ensures Passed(CompareReports(b, c, sb, sc)) <==> Releasable(b, c, sb, sc)
  {
    hide FilterMap, Count, Covered, Flag, WithinLimits, WithinBudget, Says, Exercised;
    NoFailures(b.cases);
    NoFailures(c.cases);
    Required(CorrectionNeeded, c.cases, sc.correctionIds);
    Required(RepairNeeded, c.cases, sc.repairIds);
    FlagSays(c, "crag", "true");
    FlagSays(c, "claim_repair", "true");
    FlagSays(c, "semantic_cache", "false");
    LimitsMean(b, c, sb, sc);
  }
}
