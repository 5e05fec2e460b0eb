/** What an AI proposal may change: packages/evaluation/policy/adjudication_policy.py, lines 34-186. */
module Adjudication {
  import opened Wrappers
  import opened Evaluation

  datatype VerdictKind = Satisfied | NotSatisfied | CannotDetermine

  datatype Verdict = Verdict(kind: VerdictKind, confidence: real, provider: string)

  datatype Policy = Policy(minConfidence: real, allowUpgradeToPassOnCritical: bool, resolvedConfidence: real)

  const DEFAULT_POLICY := Policy(0.85, false, 0.90)

  /** Whether a critical check may be lifted to PASS by a proposal is decided as by default: it may not. */
  predicate WithholdsOnCritical(p: Policy) {
    p.allowUpgradeToPassOnCritical == DEFAULT_POLICY.allowUpgradeToPassOnCritical
  }

  /** The model: any function of the finding and its check. */
  type Adjudicator = (CheckResult, ResolvedCheck) -> Verdict

  function Annotate(r: CheckResult, v: Verdict, reason: string): CheckResult {
    if v.provider == "none" then r else r.(reasons := r.reasons + [reason])
  }

  function ApplyVerdict(r: CheckResult, check: ResolvedCheck, v: Verdict, p: Policy): CheckResult {
    if v.kind == CannotDetermine then Annotate(r, v, "ADJUDICATION_UNRESOLVED")
    else if v.confidence < p.minConfidence then Annotate(r, v, "ADJUDICATION_BELOW_CONFIDENCE_THRESHOLD")
    else if v.kind == Satisfied then
      if check.isCritical && !p.allowUpgradeToPassOnCritical
      then Annotate(r, v, "ADJUDICATION_PASS_WITHHELD_ON_CRITICAL")
      else r.(outcome := Pass, score := Some(100.0), confidence := Some(p.resolvedConfidence),
              reasons := r.reasons + ["ADJUDICATED_SATISFIED"])
    else r.(outcome := Fail, score := Some(0.0), confidence := Some(p.resolvedConfidence),
            reasons := r.reasons + ["ADJUDICATED_NOT_SATISFIED"])
  }

  function Adjudicated(r: CheckResult, checks: map<string, ResolvedCheck>, ai: Adjudicator, p: Policy): CheckResult {
    if r.outcome != Ambiguous || r.checkId !in checks then r
    else ApplyVerdict(r, checks[r.checkId], ai(r, checks[r.checkId]), p)
  }

  function AdjudicatedAll(
      results: seq<CheckResult>, checks: map<string, ResolvedCheck>, ai: Adjudicator, p: Policy): seq<CheckResult>
  {
    seq(|results|, i requires 0 <= i < |results| => Adjudicated(results[i], checks, ai, p))
  }

  method AdjudicateResults(
      results: seq<CheckResult>, checks: map<string, ResolvedCheck>, ai: Adjudicator, p: Policy)
    returns (adjudicated: seq<CheckResult>)
    ensures adjudicated == AdjudicatedAll(results, checks, ai, p)
  {
    adjudicated := [];
    for i := 0 to |results|
      invariant |adjudicated| == i
      invariant forall k :: 0 <= k < i ==> adjudicated[k] == Adjudicated(results[k], checks, ai, p)
    {
      var result := results[i];
      if result.outcome != Ambiguous || result.checkId !in checks {
        adjudicated := adjudicated + [result];
      } else {
        var check := checks[result.checkId];
        var verdict := ai(result, check);
        adjudicated := adjudicated + [ApplyVerdict(result, check, verdict, p)];
      }
    }
  }

  /** Whatever the model says: settled findings are untouched, identity and criticality survive, an
      ambiguous finding can only stay or become PASS or FAIL on a confident verdict of that kind,
      the reasons only grow, and without the opt-in no critical check is ever lifted to PASS. */
  lemma ProposalsAreBounded(r: CheckResult, checks: map<string, ResolvedCheck>, ai: Adjudicator, p: Policy)
    ensures
      var a := Adjudicated(r, checks, ai, p);
      && a.checkId == r.checkId && a.isCritical == r.isCritical
      && (r.outcome != Ambiguous ==> a == r)
      && (a.outcome != r.outcome ==>
            && r.checkId in checks && ai(r, checks[r.checkId]).confidence >= p.minConfidence
            && (a.outcome == Pass <==> ai(r, checks[r.checkId]).kind == Satisfied)
            && (a.outcome == Fail <==> ai(r, checks[r.checkId]).kind == NotSatisfied))
      && r.reasons <= a.reasons && |a.reasons| <= |r.reasons| + 1
      && (r.checkId in checks && checks[r.checkId].isCritical && WithholdsOnCritical(p)
          ==> (a.outcome == Pass <==> r.outcome == Pass))
  {
  }
}
