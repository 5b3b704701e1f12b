/** The Auth category validator: an authorization rule whose required evidence is
  * missing asks for more information and blocks. */
module AuthRuleValidator {
  import opened Text
  import opened RulesModel

  /** The evidence pointer that stands for "required evidence not found". */
  const MissingEvidence := "MISSING_REQUIRED_EVIDENCE"
  const AuthMessage := "Authorization evidence required."

  /** The required evidence is absent from the outcome: no pointer at all, or the
    * missing-evidence marker among them. */
  predicate EvidenceMissing(v: OutcomeView) {
    v.evidencePointers == [] || MissingEvidence in v.evidencePointers
  }

  /** The outcome after Auth validation. */
  function Refine(rule: RuleDefinition, v: OutcomeView): (r: OutcomeView)
    ensures SameIdentity(r, v)
    ensures rule.evidence.requiredSources == [] || !EvidenceMissing(v) ==> r == v
    ensures rule.evidence.requiredSources != [] && EvidenceMissing(v) ==>
      r.status == NeedsInfo && r.severity == Blocking && r.action == RequestInfo
      && r.message == (if IsBlank(v.message) then AuthMessage else v.message)
  {
    if rule.evidence.requiredSources == [] then v
    else if EvidenceMissing(v) then Forced(v, NeedsInfo, Blocking, RequestInfo, AuthMessage)
    else v
  }

  /** Validating twice is the same as validating once. */
  lemma RefineIdempotent(rule: RuleDefinition, v: OutcomeView)
    ensures Refine(rule, Refine(rule, v)) == Refine(rule, v)
  {
  }

  /** Auth validation never lowers how severe an outcome is: the result either is the
    * outcome unchanged or is blocking. */
  lemma RefineBlocksOrKeeps(rule: RuleDefinition, v: OutcomeView)
    ensures Refine(rule, v) == v || Refine(rule, v).severity == Blocking
  {
  }

  /** IRuleCategoryValidator.Validate for the Auth category: refines `outcome` in place
    * and returns it. */
  method Validate(rule: RuleDefinition, outcome: RuleOutcome, claim: Claim) returns (r: RuleOutcome)
    modifies outcome
    ensures r == outcome
    ensures outcome.View() == Refine(rule, old(outcome.View()))
  {
    if rule.evidence.requiredSources == [] {
      return outcome;
    }
    if outcome.evidencePointers == [] || MissingEvidence in outcome.evidencePointers {
      outcome.Force(NeedsInfo, Blocking, RequestInfo, AuthMessage);
    }
    return outcome;
  }
}
