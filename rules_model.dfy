/** The data model of the claim rules engine: the rule catalog (rule packs and rule
  * definitions), the claim being evaluated, and the outcomes the engine reports. */
module RulesModel {
  import opened Text

  // ---------------------------------------------------------------------
  // Enumerations.  A C# enum variable can hold any integer, named or not; the
  // `Undefined…` constructors stand for the unnamed ones, which the catalog
  // validator rejects.

  datatype RuleStatus = Pass | Fail | Warn | NeedsInfo | UndefinedStatus(code: int)
  datatype RuleSeverity = NonBlocking | Blocking | UndefinedSeverity(code: int)
  datatype RuleActionType =
    | NoAction | AutoRelease | RoutePredicted | RequestInfo | SuggestModifierChange
    | UndefinedAction(code: int)
  datatype RuleCategory =
    | Integrity | MedicalNecessity | NcciMue | Auth | Frequency | PosSpecialty | Modifier
    | ClientContract | UndefinedCategory(code: int)

  // ---------------------------------------------------------------------
  // Rule catalog

  /** The matching conditions of a rule; an empty list or an absent bound is unset. */
  datatype RuleTrigger = RuleTrigger(
    cptCodes: seq<string>,
    icdCodes: seq<string>,
    icdPrefixes: seq<string>,
    placeOfService: seq<string>,
    minAge: Option<int>,
    maxAge: Option<int>,
    requiredModifiers: seq<string>,
    providerSpecialties: seq<string>,
    requiresDateOfService: bool,
    requiresIcdMismatch: bool,
    minDaysSinceLast: Option<int>)

  /** The status, severity and action a rule reports before category refinement. */
  datatype RuleAction = RuleAction(status: RuleStatus, severity: RuleSeverity, action: RuleActionType)

  datatype EvidenceRequirement = EvidenceRequirement(requiredSources: seq<string>, message: string)

  datatype RuleDefinition = RuleDefinition(
    ruleId: string,
    ruleVersion: string,
    priority: int,
    category: RuleCategory,
    trigger: RuleTrigger,
    action: RuleAction,
    evidence: EvidenceRequirement,
    message: string)

  /** A rule pack; dates are day numbers. */
  datatype RulePack = RulePack(
    packId: string,
    payerId: string,
    planId: string,
    state: string,
    effectiveStart: Option<int>,
    effectiveEnd: Option<int>,
    priority: int,
    layer: string,
    rules: seq<RuleDefinition>)

  // ---------------------------------------------------------------------
  // Claim

  datatype ClaimHeader = ClaimHeader(
    payerId: string,
    planId: string,
    state: string,
    placeOfService: string,
    dateOfService: Option<int>,
    renderingProviderNpi: string,
    billingProviderNpi: string,
    orderingProviderNpi: string,
    renderingProviderSpecialty: string)

  datatype Patient = Patient(patientId: string, age: Option<int>)
  datatype Diagnosis = Diagnosis(code: string, isPrincipal: bool)
  datatype Procedure = Procedure(code: string, units: int, modifiers: seq<string>, laterality: string)
  datatype SupportingEvidence = SupportingEvidence(evidenceId: string, source: string, snippet: string)

  datatype Claim = Claim(
    header: ClaimHeader,
    patient: Patient,
    diagnoses: seq<Diagnosis>,
    procedures: seq<Procedure>,
    evidence: seq<SupportingEvidence>)

  // ---------------------------------------------------------------------
  // Outcomes

  /** The value of a rule outcome at one moment. */
  datatype OutcomeView = OutcomeView(
    ruleId: string,
    ruleVersion: string,
    layer: string,
    priority: int,
    category: RuleCategory,
    status: RuleStatus,
    severity: RuleSeverity,
    action: RuleActionType,
    message: string,
    evidencePointers: seq<string>,
    triggerFacts: map<string, string>)

  /** A rule outcome object; category validators change its status, severity, action
    * and message in place. */
  class RuleOutcome {
    var ruleId: string
    var ruleVersion: string
    var layer: string
    var priority: int
    var category: RuleCategory
    var status: RuleStatus
    var severity: RuleSeverity
    var action: RuleActionType
    var message: string
    var evidencePointers: seq<string>
    var triggerFacts: map<string, string>

    function View(): OutcomeView
      reads this
    {
      OutcomeView(ruleId, ruleVersion, layer, priority, category, status, severity, action,
                  message, evidencePointers, triggerFacts)
    }

    constructor (v: OutcomeView)
      ensures View() == v
    {
      ruleId, ruleVersion, layer, priority := v.ruleId, v.ruleVersion, v.layer, v.priority;
      category, status, severity, action := v.category, v.status, v.severity, v.action;
      message, evidencePointers, triggerFacts := v.message, v.evidencePointers, v.triggerFacts;
    }

    /** Overwrites every field with the values of v. */
    method Assign(v: OutcomeView)
      modifies this
      ensures View() == v
    {
      ruleId, ruleVersion, layer, priority := v.ruleId, v.ruleVersion, v.layer, v.priority;
      category, status, severity, action := v.category, v.status, v.severity, v.action;
      message, evidencePointers, triggerFacts := v.message, v.evidencePointers, v.triggerFacts;
    }

    /** The field writes every category validator performs: status, severity and action
      * are overwritten, the message only when it is blank. */
    method Force(s: RuleStatus, sev: RuleSeverity, a: RuleActionType, fallback: string)
      modifies this
      ensures View() == Forced(old(View()), s, sev, a, fallback)
    {
      status := s;
      severity := sev;
      action := a;
      if IsBlank(message) {
        message := fallback;
      }
    }
  }

  /** The value Force leaves behind. */
  function Forced(v: OutcomeView, s: RuleStatus, sev: RuleSeverity, a: RuleActionType, fallback: string): (r: OutcomeView)
    ensures SameIdentity(r, v)
    ensures r.status == s && r.severity == sev && r.action == a
    ensures !IsBlank(v.message) ==> r.message == v.message
    ensures IsBlank(v.message) ==> r.message == fallback
  {
    v.(status := s, severity := sev, action := a,
       message := if IsBlank(v.message) then fallback else v.message)
  }

  /** r and v agree on every field a category validator must leave alone. */
  predicate SameIdentity(r: OutcomeView, v: OutcomeView) {
    r.ruleId == v.ruleId && r.ruleVersion == v.ruleVersion && r.layer == v.layer
    && r.priority == v.priority && r.category == v.category
    && r.evidencePointers == v.evidencePointers && r.triggerFacts == v.triggerFacts
  }

  /** The result of one evaluation; `winningRule` is null until a rule has fired. */
  class RuleEvaluationResult {
    var status: RuleStatus
    var severity: RuleSeverity
    var actions: seq<RuleActionType>
    var winningRule: RuleOutcome?
    var outcomes: seq<RuleOutcome>
    var notes: seq<string>

    constructor ()
      ensures status == Pass && severity == NonBlocking
      ensures actions == [] && winningRule == null && outcomes == [] && notes == []
    {
      status, severity := Pass, NonBlocking;
      actions, winningRule, outcomes, notes := [], null, [], [];
    }
  }

  /** The current values of a list of outcome objects. */
  function Views(os: seq<RuleOutcome>): (vs: seq<OutcomeView>)
    reads os
    ensures |vs| == |os|
    ensures forall i :: 0 <= i < |os| ==> vs[i] == os[i].View()
  {
    seq(|os|, i reads os requires 0 <= i < |os| => os[i].View())
  }

  lemma ViewsAppend(a: seq<RuleOutcome>, b: seq<RuleOutcome>)
    ensures Views(a + b) == Views(a) + Views(b)
  {
  }

  // ---------------------------------------------------------------------
  // Layers

  /** The LayerOrder table (case-insensitive); a layer it does not list ranks as PAYER. */
  function LayerOrdinal(layer: string): (r: int)
    ensures 0 <= r <= 3
    ensures EqIgnoreCase(layer, "GLOBAL") <==> r == 0
    ensures EqIgnoreCase(layer, "NCCI_MUE") <==> r == 1
    ensures EqIgnoreCase(layer, "CLIENT") <==> r == 3
  {
    assert Lower("GLOBAL")[0] == 'g' && Lower("NCCI_MUE")[0] == 'n';
    assert Lower("PAYER")[0] == 'p' && Lower("CLIENT")[0] == 'c';
    if EqIgnoreCase(layer, "GLOBAL") then 0
    else if EqIgnoreCase(layer, "NCCI_MUE") then 1
    else if EqIgnoreCase(layer, "PAYER") then 2
    else if EqIgnoreCase(layer, "CLIENT") then 3
    else 2
  }
}
