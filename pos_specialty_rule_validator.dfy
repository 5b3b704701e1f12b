/** The PosSpecialty category validator: a rule that names places of service or
  * provider specialties asks for the value when the claim leaves it blank. */
module PosSpecialtyRuleValidator {
  import opened Text
  import opened RulesModel

  // Literals beyond about forty characters are split so that the verifier can see
  // their first character.
  const PosMessage := "Place of service required " + "for POS/specialty rule."
  const SpecialtyMessage := "Rendering provider specialty " + "required for POS/specialty rule."

  predicate PosMissing(rule: RuleDefinition, claim: Claim) {
    rule.trigger.placeOfService != [] && IsBlank(claim.header.placeOfService)
  }

  predicate SpecialtyMissing(rule: RuleDefinition, claim: Claim) {
    rule.trigger.providerSpecialties != [] && IsBlank(claim.header.renderingProviderSpecialty)
  }

  /** The outcome after PosSpecialty validation: the place-of-service check, then the
    * specialty check on what the first one left. */
  function Refine(rule: RuleDefinition, v: OutcomeView, claim: Claim): (r: OutcomeView)
    ensures SameIdentity(r, v)
    ensures !PosMissing(rule, claim) && !SpecialtyMissing(rule, claim) ==> r == v
    ensures PosMissing(rule, claim) || SpecialtyMissing(rule, claim) ==>
      r.status == NeedsInfo && r.severity == Blocking && r.action == RequestInfo
    ensures !IsBlank(v.message) ==> r.message == v.message
  {
    var afterPos := if PosMissing(rule, claim)
      then Forced(v, NeedsInfo, Blocking, RequestInfo, PosMessage) else v;
    if SpecialtyMissing(rule, claim)
      then Forced(afterPos, NeedsInfo, Blocking, RequestInfo, SpecialtyMessage) else afterPos
  }

  /** The message a blank-message outcome ends with: the place-of-service message wins
    * when both checks fire, because the second check writes only a blank message. */
  lemma RefineMessage(rule: RuleDefinition, v: OutcomeView, claim: Claim)
    requires IsBlank(v.message)
    ensures Refine(rule, v, claim).message ==
      if PosMissing(rule, claim) then PosMessage
      else if SpecialtyMissing(rule, claim) then SpecialtyMessage
      else v.message
  {
    if PosMissing(rule, claim) {
      assert !IsBlank(PosMessage) by { assert PosMessage[0] == 'P'; }
    }
  }

  lemma RefineIdempotent(rule: RuleDefinition, v: OutcomeView, claim: Claim)
    ensures Refine(rule, Refine(rule, v, claim), claim) == Refine(rule, v, claim)
  {
    assert !IsBlank(PosMessage) by { assert PosMessage[0] == 'P'; }
    assert !IsBlank(SpecialtyMessage) by { assert SpecialtyMessage[0] == 'R'; }
  }

  /** IRuleCategoryValidator.Validate for the PosSpecialty category. */
  method Validate(rule: RuleDefinition, outcome: RuleOutcome, claim: Claim) returns (r: RuleOutcome)
    modifies outcome
    ensures r == outcome
    ensures outcome.View() == Refine(rule, old(outcome.View()), claim)
  {
    if rule.trigger.placeOfService != [] && IsBlank(claim.header.placeOfService) {
      outcome.Force(NeedsInfo, Blocking, RequestInfo, PosMessage);
    }
    if rule.trigger.providerSpecialties != [] && IsBlank(claim.header.renderingProviderSpecialty) {
      outcome.Force(NeedsInfo, Blocking, RequestInfo, SpecialtyMessage);
    }
    return outcome;
  }
}
