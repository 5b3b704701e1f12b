/** The engine on the catalogs and claims of the repository's engine and category
  * validator scenarios.  Dates are day numbers counted from 0001-01-01, as
  * DateOnly.DayNumber counts them. */
module RulesEngineScenarios {
  import opened Text
  import opened RulesModel
  import opened RulesEngine
  import Auth = AuthRuleValidator
  import Freq = FrequencyRuleValidator
  import Pos = PosSpecialtyRuleValidator

  const Jan1st2025 := 739251
  const Dec31st2025 := 739615
  const Jun1st2024 := 739037

  function Header(payer: string, pos: string, dos: Option<int>, rendering: string, billing: string): ClaimHeader {
    ClaimHeader(payer, "", "", pos, dos, rendering, billing, "", "")
  }

  /** A header with every field the preflight checks look at. */
  const FullHeader := Header("DEFAULT", "11", Some(Jan1st2025), "1111111111", "2222222222")

  function OneProcedure(h: ClaimHeader, diagnoses: seq<Diagnosis>, patientId: string): Claim {
    Claim(h, Patient(patientId, None), diagnoses, [Procedure("71260", 1, [], "")], [])
  }

  const NoTrigger := RuleTrigger([], [], [], [], None, None, [], [], false, false, None)
  const NoEvidence := EvidenceRequirement([], "")
  /** The action a rule has when the catalog does not set one: FAIL, BLOCKING,
    * request_info. */
  const DefaultAction := RuleAction(Fail, Blocking, RequestInfo)

  function Rule(id: string, category: RuleCategory, t: RuleTrigger, a: RuleAction,
                ev: EvidenceRequirement, message: string): RuleDefinition {
    RuleDefinition(id, "1.0", 0, category, t, a, ev, message)
  }

  function DefaultPack(id: string, layer: string, start: Option<int>, end: Option<int>,
                       rules: seq<RuleDefinition>): RulePack {
    RulePack(id, "DEFAULT", "", "", start, end, 0, layer, rules)
  }

  lemma Listed(xs: seq<string>, x: string)
    requires xs != [] && xs[0] == x
    ensures ContainsIgnoreCase(xs, x)
  {
    assert EqIgnoreCase(xs[0], x);
  }

  /** The outcome of the first rule of a pack that applies, when that rule fires, is
    * among the reported outcomes. */
  lemma FirstRuleReported(p: RulePack, claim: Claim, vals: Validators)
    requires Applicable(p, claim.header) && p.rules != [] && TriggerMatches(p.rules[0], claim)
    ensures OutcomeFor(p.rules[0], p, claim, vals) in EvaluationOf([p], claim, vals).outcomes
  {
    SelectRulePacksMembers([p], claim.header, p);
    FiringRuleReported([p], claim, vals, p, p.rules[0]);
  }

  /** No configured pack: Pass, with the no-packs note. */
  lemma ReturnsNoPacksWhenNoneConfigured()
    ensures var e := EvaluationOf([], OneProcedure(FullHeader, [], ""), map[]);
      e.status == Pass && NoPacksNote in e.notes
  {
    var claim := OneProcedure(FullHeader, [], "");
    FullHeaderComplete();
    HeaderChecksEmpty(claim.header);
    assert ModifierChecks(claim.procedures) == [] by {
      assert claim.procedures[0].modifiers == [];
    }
    assert Preflight(claim) == [];
    NoPacksConfigured(claim, map[]);
  }

  /** Every field of the full header is present. */
  lemma FullHeaderComplete()
    ensures !HeaderMissing(FullHeader)
  {
    assert !IsWhiteSpace(FullHeader.payerId[0]);
    assert !IsWhiteSpace(FullHeader.placeOfService[0]);
    assert !IsWhiteSpace(FullHeader.renderingProviderNpi[0]);
    assert !IsWhiteSpace(FullHeader.billingProviderNpi[0]);
  }

  /** A CPT 71260 rule with ICD prefix R07 fires on a claim with 71260 and R07.9 and
    * reports its AutoRelease action. */
  lemma FiresMatchingRule()
    ensures exists v :: v in EvaluationOf([ChestPack], ChestClaim, map[]).outcomes && v.action == AutoRelease
  {
    ChestRuleFires();
    FirstRuleReported(ChestPack, ChestClaim, map[]);
  }

  lemma ChestRuleFires()
    ensures TriggerMatches(ChestPack.rules[0], ChestClaim)
    ensures OutcomeFor(ChestPack.rules[0], ChestPack, ChestClaim, map[]).action == AutoRelease
  {
    var claim := ChestClaim;
    var rule := ChestPack.rules[0];
    assert StartsWithIgnoreCase(claim.diagnoses[0].code, rule.trigger.icdPrefixes[0]) by {
      assert claim.diagnoses[0].code[..3] == "R07";
    }
    Listed(rule.trigger.cptCodes, claim.procedures[0].code);
  }

  const ChestPack := DefaultPack("PAYER-DEFAULT", "PAYER", None, None,
    [Rule("CT_CHEST_REQUIRE_DX", MedicalNecessity, NoTrigger.(cptCodes := ["71260"], icdPrefixes := ["R07"]),
          RuleAction(Pass, NonBlocking, AutoRelease), NoEvidence, "CT chest supported.")])

  const ChestClaim := OneProcedure(FullHeader, [Diagnosis("R07.9", false)], "")

  /** A DEFAULT pack effective only in 2025 is not used for a claim of 2024-06-01. */
  lemma RespectsEffectiveDates()
    ensures NoPacksNote in EvaluationOf([ActivePack], ActiveClaim, map[]).notes
  {
    NoEffectivePack([ActivePack], ActiveClaim, map[]);
  }

  const ActivePack := DefaultPack("ACTIVE-PACK", "PAYER", Some(Jan1st2025), Some(Dec31st2025),
    [Rule("ACTIVE", MedicalNecessity, NoTrigger.(cptCodes := ["71260"]),
          RuleAction(Warn, NonBlocking, RoutePredicted), NoEvidence, "")])

  const ActiveClaim := OneProcedure(Header("DEFAULT", "", Some(Jun1st2024), "", ""), [], "")

  /** A GLOBAL rule with RequiresDateOfService fires on a claim without a date and
    * reports NeedsInfo / RequestInfo in layer GLOBAL. */
  lemma TriggersWhenDateOfServiceMissing()
    ensures exists v :: (v in EvaluationOf([DosPack], DosClaim, map[]).outcomes
      && v.status == NeedsInfo && v.action == RequestInfo && v.layer == "GLOBAL")
  {
    DosRuleFires();
    FirstRuleReported(DosPack, DosClaim, map[]);
  }

  lemma DosRuleFires()
    ensures TriggerMatches(DosPack.rules[0], DosClaim)
    ensures var v := OutcomeFor(DosPack.rules[0], DosPack, DosClaim, map[]);
      v.status == NeedsInfo && v.action == RequestInfo && v.layer == "GLOBAL"
  {
    Listed(DosPack.rules[0].trigger.cptCodes, DosClaim.procedures[0].code);
  }

  const DosPack := DefaultPack("GLOBAL-DOS", "GLOBAL", None, None,
    [Rule("REQ_DOS", Integrity, NoTrigger.(cptCodes := ["71260"], requiresDateOfService := true),
          RuleAction(NeedsInfo, Blocking, RequestInfo), NoEvidence, "")])

  const DosClaim := OneProcedure(Header("DEFAULT", "", None, "", ""), [], "")

  /** Blank payer, place of service and provider NPIs are each reported. */
  lemma FlagsMissingRequiredHeaderFields()
    ensures var outs := EvaluationOf([], BlankClaim, map[]).outcomes;
      HasRuleId(outs, MissingPayer) && HasRuleId(outs, MissingPos)
      && HasRuleId(outs, MissingRenderingNpi) && HasRuleId(outs, MissingBillingNpi)
    ensures EvaluationOf([], BlankClaim, map[]).status == NeedsInfo
  {
    var claim := BlankClaim;
    PreflightHeaderFlags(claim);
    var fired := FiredAll(SelectRulePacks([], claim.header), claim, map[]);
    HasRuleIdAppend(Preflight(claim), fired, MissingPayer);
    HasRuleIdAppend(Preflight(claim), fired, MissingPos);
    HasRuleIdAppend(Preflight(claim), fired, MissingRenderingNpi);
    HasRuleIdAppend(Preflight(claim), fired, MissingBillingNpi);
    NoPacksConfigured(claim, map[]);
  }

  const BlankClaim := Claim(Header("", "", None, "", ""), Patient("", None), [], [], [])

  /** The modifiers "2" and "ABC" are reported as invalid. */
  lemma FlagsInvalidModifierFormat()
    ensures HasRuleId(EvaluationOf([], ModifierClaim, map[]).outcomes, InvalidModifierId)
  {
    var claim := ModifierClaim;
    assert InvalidModifier(claim.procedures[0].modifiers[0]);
    PreflightModifierFlags(claim);
    HasRuleIdAppend(Preflight(claim), FiredAll(SelectRulePacks([], claim.header), claim, map[]),
                    InvalidModifierId);
  }

  const ModifierClaim := Claim(Header("DEFAULT", "", Some(Jan1st2025), "", ""), Patient("", None), [],
                               [Procedure("71260", 1, ["2", "ABC"], "")], [])

  // ---------------------------------------------------------------------
  // Category validators, end to end

  const Standard := StandardValidators(Freq.FakeHistory)

  /** An Auth rule requiring source "Auth" on a claim without evidence asks for it. */
  lemma AuthValidatorRequiresEvidence()
    ensures exists v :: (v in EvaluationOf([AuthPack], AuthClaim, Standard).outcomes
      && v.ruleId == "AUTH_REQUIRED" && v.status == NeedsInfo && v.action == RequestInfo)
  {
    AuthRuleFires();
    FirstRuleReported(AuthPack, AuthClaim, Standard);
  }

  lemma AuthRuleFires()
    ensures TriggerMatches(AuthPack.rules[0], AuthClaim)
    ensures var v := OutcomeFor(AuthPack.rules[0], AuthPack, AuthClaim, Standard);
      v.ruleId == "AUTH_REQUIRED" && v.status == NeedsInfo && v.action == RequestInfo
  {
    var rule := AuthPack.rules[0];
    Listed(rule.trigger.cptCodes, AuthClaim.procedures[0].code);
    var b := BuildOutcome(rule, AuthClaim, AuthPack);
    assert b.evidencePointers == [];
    assert OutcomeFor(rule, AuthPack, AuthClaim, Standard) == Auth.Refine(rule, b);
  }

  const AuthPack := DefaultPack("AUTH-PACK", "PAYER", None, None,
    [Rule("AUTH_REQUIRED", RuleCategory.Auth, NoTrigger.(cptCodes := ["71260"]), DefaultAction,
          EvidenceRequirement(["Auth"], ""), "")])

  const AuthClaim := OneProcedure(Header("DEFAULT", "", Some(Jan1st2025), "1111111111", "2222222222"), [], "")

  /** A Frequency rule without a threshold routes the claim on, asking for history. */
  lemma FrequencyValidatorRoutesPredicted()
    ensures exists v :: (v in EvaluationOf([FreqPack], FreqClaim, Standard).outcomes
      && v.ruleId == "FREQ_CHECK" && v.status == NeedsInfo && v.action == RoutePredicted)
  {
    FreqRuleFires();
    FirstRuleReported(FreqPack, FreqClaim, Standard);
  }

  lemma FreqRuleFires()
    ensures TriggerMatches(FreqPack.rules[0], FreqClaim)
    ensures var v := OutcomeFor(FreqPack.rules[0], FreqPack, FreqClaim, Standard);
      v.ruleId == "FREQ_CHECK" && v.status == NeedsInfo && v.action == RoutePredicted
  {
    var rule := FreqPack.rules[0];
    Listed(rule.trigger.cptCodes, FreqClaim.procedures[0].code);
    var b := BuildOutcome(rule, FreqClaim, FreqPack);
    assert OutcomeFor(rule, FreqPack, FreqClaim, Standard) == Freq.Refine(rule, b, FreqClaim, Freq.FakeHistory);
  }

  const FreqPack := DefaultPack("FREQ-PACK", "PAYER", None, None,
    [Rule("FREQ_CHECK", Frequency, NoTrigger.(cptCodes := ["71260"]), DefaultAction, NoEvidence, "")])

  const FreqClaim := OneProcedure(Header("DEFAULT", "", Some(Jan1st2025), "", ""), [], "PAT-1")

  /** A PosSpecialty rule for POS 11 fires on a claim without a place of service and
    * asks for it. */
  lemma PosSpecialtyValidatorRequiresPos()
    ensures exists v :: (v in EvaluationOf([PosPack], PosClaim, Standard).outcomes
      && v.ruleId == "POS_CHECK" && v.status == NeedsInfo && v.action == RequestInfo)
  {
    PosRuleFires();
    FirstRuleReported(PosPack, PosClaim, Standard);
  }

  lemma PosRuleFires()
    ensures TriggerMatches(PosPack.rules[0], PosClaim)
    ensures var v := OutcomeFor(PosPack.rules[0], PosPack, PosClaim, Standard);
      v.ruleId == "POS_CHECK" && v.status == NeedsInfo && v.action == RequestInfo
  {
    var rule := PosPack.rules[0];
    Listed(rule.trigger.cptCodes, PosClaim.procedures[0].code);
    var b := BuildOutcome(rule, PosClaim, PosPack);
    assert OutcomeFor(rule, PosPack, PosClaim, Standard) == Pos.Refine(rule, b, PosClaim);
  }

  const PosPack := DefaultPack("POS-PACK", "PAYER", None, None,
    [Rule("POS_CHECK", PosSpecialty, NoTrigger.(cptCodes := ["71260"], placeOfService := ["11"]),
          DefaultAction, NoEvidence, "")])

  const PosClaim := OneProcedure(Header("DEFAULT", "", Some(Jan1st2025), "", ""), [], "")
}
