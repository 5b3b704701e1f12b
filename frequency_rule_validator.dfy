/** The Frequency category validator: checks how long ago the patient last had the
  * claim's first procedure, using a utilization-history lookup. */
module FrequencyRuleValidator {
  import opened Text
  import opened RulesModel

  /** IUtilizationHistoryService.TryGetMostRecentProcedureDate: the day number of the
    * most recent (patientId, procedureCode) procedure, or None when it has no record. */
  type History = (string, string) -> Option<int>

  /** FakeUtilizationHistoryService: never finds a record. */
  function FakeHistory(patientId: string, procedureCode: string): (r: Option<int>)
    ensures r == None
  {
    None
  }

  const NoThresholdMessage := "Frequency rule requires " + "prior utilization history."
  const NoDateMessage := "Date of service required " + "to evaluate frequency."
  const NoPatientMessage := "Patient identifier required " + "for frequency check."
  const NoHistoryMessage := "No utilization history " + "available for frequency check."

  /** The code of the claim's first procedure, or "" when it has none. */
  function FirstProcedureCode(claim: Claim): (code: string)
    ensures claim.procedures != [] ==> code == claim.procedures[0].code
    ensures claim.procedures == [] ==> code == ""
  {
    if claim.procedures == [] then "" else claim.procedures[0].code
  }

  function LimitMessage(code: string, days: int): string {
    "Frequency limit: last " + code + " was " + IntToString(days) + " days ago."
  }

  /** How the validator decides, outcome aside. */
  datatype Verdict =
    | NoThreshold                       // the rule sets no MinDaysSinceLast
    | NoDate                            // the claim has no date of service
    | NoPatient                         // blank first procedure code or patient id
    | NoHistory                         // the lookup found nothing
    | TooSoon(code: string, days: int)  // fewer days than the threshold have passed
    | Enough                            // the threshold is met

  function Decide(rule: RuleDefinition, claim: Claim, history: History): (d: Verdict)
    ensures d == NoThreshold <==> rule.trigger.minDaysSinceLast.None?
    ensures d == NoDate <==> rule.trigger.minDaysSinceLast.Some? && claim.header.dateOfService.None?
    ensures d == NoPatient <==>
      rule.trigger.minDaysSinceLast.Some? && claim.header.dateOfService.Some?
      && (IsBlank(FirstProcedureCode(claim)) || IsBlank(claim.patient.patientId))
    ensures d == NoHistory <==>
      rule.trigger.minDaysSinceLast.Some? && claim.header.dateOfService.Some?
      && !IsBlank(FirstProcedureCode(claim)) && !IsBlank(claim.patient.patientId)
      && history(claim.patient.patientId, FirstProcedureCode(claim)).None?
    ensures d.TooSoon? ==>
      d.code == FirstProcedureCode(claim) && !IsBlank(d.code) && !IsBlank(claim.patient.patientId)
      && history(claim.patient.patientId, d.code).Some?
      && d.days == claim.header.dateOfService.value - history(claim.patient.patientId, d.code).value
      && d.days < rule.trigger.minDaysSinceLast.value
    ensures d == Enough ==>
      rule.trigger.minDaysSinceLast.Some? && claim.header.dateOfService.Some?
      && history(claim.patient.patientId, FirstProcedureCode(claim)).Some?
      && claim.header.dateOfService.value - history(claim.patient.patientId, FirstProcedureCode(claim)).value
         >= rule.trigger.minDaysSinceLast.value
  {
    match rule.trigger.minDaysSinceLast
    case None => NoThreshold
    case Some(minDays) =>
      match claim.header.dateOfService
      case None => NoDate
      case Some(dos) =>
        var code := FirstProcedureCode(claim);
        var patientId := claim.patient.patientId;
        if IsBlank(code) || IsBlank(patientId) then NoPatient
        else match history(patientId, code)
          case None => NoHistory
          case Some(last) =>
            if dos - last < minDays then TooSoon(code, dos - last) else Enough
  }

  /** The outcome after Frequency validation. */
  function Refine(rule: RuleDefinition, v: OutcomeView, claim: Claim, history: History): (r: OutcomeView)
    ensures SameIdentity(r, v)
    ensures !IsBlank(v.message) ==> r.message == v.message
    ensures Decide(rule, claim, history) == Enough ==> r == v
    ensures Decide(rule, claim, history) in {NoThreshold, NoPatient, NoHistory} ==>
      r.status == NeedsInfo && r.severity == NonBlocking && r.action == RoutePredicted
    ensures Decide(rule, claim, history) == NoDate ==>
      r.status == NeedsInfo && r.severity == Blocking && r.action == RequestInfo
    ensures Decide(rule, claim, history).TooSoon? ==>
      r.status == Warn && r.severity == NonBlocking && r.action == RoutePredicted
    ensures IsBlank(v.message) && Decide(rule, claim, history) == NoThreshold ==> r.message == NoThresholdMessage
    ensures IsBlank(v.message) && Decide(rule, claim, history) == NoDate ==> r.message == NoDateMessage
    ensures IsBlank(v.message) && Decide(rule, claim, history) == NoPatient ==> r.message == NoPatientMessage
    ensures IsBlank(v.message) && Decide(rule, claim, history) == NoHistory ==> r.message == NoHistoryMessage
  {
    match Decide(rule, claim, history)
    case NoThreshold => Forced(v, NeedsInfo, NonBlocking, RoutePredicted, NoThresholdMessage)
    case NoDate => Forced(v, NeedsInfo, Blocking, RequestInfo, NoDateMessage)
    case NoPatient => Forced(v, NeedsInfo, NonBlocking, RoutePredicted, NoPatientMessage)
    case NoHistory => Forced(v, NeedsInfo, NonBlocking, RoutePredicted, NoHistoryMessage)
    case TooSoon(code, days) => Forced(v, Warn, NonBlocking, RoutePredicted, LimitMessage(code, days))
    case Enough => v
  }

  /** Only a missing date of service blocks; every other refinement routes the claim
    * on without blocking it. */
  lemma RefineSeverity(rule: RuleDefinition, v: OutcomeView, claim: Claim, history: History)
    ensures Decide(rule, claim, history) != Enough ==>
      (Refine(rule, v, claim, history).severity == Blocking <==> Decide(rule, claim, history) == NoDate)
    ensures Decide(rule, claim, history) == NoDate ==>
      Refine(rule, v, claim, history).status == NeedsInfo && Refine(rule, v, claim, history).action == RequestInfo
  {
  }

  /** With the fake history service, a rule with a threshold and a claim with a date,
    * a procedure and a patient always end as NeedsInfo / RoutePredicted. */
  lemma FakeHistoryRoutes(rule: RuleDefinition, v: OutcomeView, claim: Claim)
    ensures Decide(rule, claim, FakeHistory) != Enough
    ensures Decide(rule, claim, FakeHistory).TooSoon? == false
    ensures Refine(rule, v, claim, FakeHistory).status == NeedsInfo
  {
  }

  /** A too-recent procedure yields a warning whose message names the code and the
    * elapsed days when the outcome had no message. */
  lemma TooSoonWarns(rule: RuleDefinition, v: OutcomeView, claim: Claim, history: History)
    requires Decide(rule, claim, history).TooSoon?
    requires IsBlank(v.message)
    ensures var r := Refine(rule, v, claim, history);
      r.status == Warn && r.severity == NonBlocking && r.action == RoutePredicted
      && r.message == LimitMessage(FirstProcedureCode(claim),
           claim.header.dateOfService.value
           - history(claim.patient.patientId, FirstProcedureCode(claim)).value)
  {
  }

  lemma RefineIdempotent(rule: RuleDefinition, v: OutcomeView, claim: Claim, history: History)
    ensures Refine(rule, Refine(rule, v, claim, history), claim, history) == Refine(rule, v, claim, history)
  {
    assert NoThresholdMessage[0] == 'F' && NoDateMessage[0] == 'D';
    assert NoPatientMessage[0] == 'P' && NoHistoryMessage[0] == 'N';
    var d := Decide(rule, claim, history);
    if d.TooSoon? {
      assert LimitMessage(d.code, d.days)[0] == 'F';
    }
  }

  /** IRuleCategoryValidator.Validate for the Frequency category. */
  method Validate(rule: RuleDefinition, outcome: RuleOutcome, claim: Claim, history: History)
    returns (r: RuleOutcome)
    modifies outcome
    ensures r == outcome
    ensures outcome.View() == Refine(rule, old(outcome.View()), claim, history)
  {
    r := outcome;
    if rule.trigger.minDaysSinceLast.None? {
      outcome.Force(NeedsInfo, NonBlocking, RoutePredicted, NoThresholdMessage);
      return;
    }
    var minDays := rule.trigger.minDaysSinceLast.value;
    if claim.header.dateOfService.None? {
      outcome.Force(NeedsInfo, Blocking, RequestInfo, NoDateMessage);
      return;
    }
    var procedureCode := if claim.procedures == [] then "" else claim.procedures[0].code;
    var patientId := claim.patient.patientId;
    if IsBlank(procedureCode) || IsBlank(patientId) {
      outcome.Force(NeedsInfo, NonBlocking, RoutePredicted, NoPatientMessage);
      return;
    }
    var lastDate := history(patientId, procedureCode);
    if lastDate.None? {
      outcome.Force(NeedsInfo, NonBlocking, RoutePredicted, NoHistoryMessage);
      return;
    }
    var days := claim.header.dateOfService.value - lastDate.value;
    if days < minDays {
      outcome.Force(Warn, NonBlocking, RoutePredicted, LimitMessage(procedureCode, days));
    }
  }
}
