/** Shared vocabulary of the decision pipeline: packages/domain/evaluation.py and
    packages/application/services/check_resolver.py, lines 26-41. */
module Evaluation {
  import opened Wrappers

  datatype Outcome = Pass | Fail | Ambiguous | Unsupported | NotEvaluable

  datatype CheckResult = CheckResult(
    checkId: string, isCritical: bool, outcome: Outcome, confidence: Option<real>, score: Option<real>,
    reasons: seq<string>)

  datatype ResolvedCheck = ResolvedCheck(id: string, isCritical: bool, weight: int)

  datatype GateStatus = Pending | Passed | Held | ReviewRequired | Cancelled
}
