/** The claim rules engine: preflight checks on the claim header, selection of the
  * applicable rule packs, trigger matching, outcome building with category
  * validation, the winning rule and the aggregate status. */
module RulesEngine {
  import opened Text
  import opened Sequences
  import opened RulesModel
  import Auth = AuthRuleValidator
  import Freq = FrequencyRuleValidator
  import Pos = PosSpecialtyRuleValidator

  // ---------------------------------------------------------------------
  // Preflight: structural checks that run before any configured rule.

  const MissingDos := "GLOBAL_MISSING_DOS"
  const MissingPayer := "GLOBAL_MISSING_PAYER"
  const MissingPos := "GLOBAL_MISSING_POS"
  const MissingRenderingNpi := "GLOBAL_MISSING_RENDERING_NPI"
  const MissingBillingNpi := "GLOBAL_MISSING_BILLING_NPI"
  const InvalidModifierId := "GLOBAL_INVALID_MODIFIER"

  const DosRequired := "Date of service is required."
  const PayerRequired := "Payer is required."
  const PosRequired := "Place of service is required."
  const RenderingNpiRequired := "Rendering provider NPI is required."
  const BillingNpiRequired := "Billing provider NPI is required."
  const ModifierLength := "Modifier must be two characters."

  /** A preflight outcome: layer GLOBAL, rule version 1.0, no evidence. */
  function PreflightOutcome(ruleId: string, priority: int, category: RuleCategory, status: RuleStatus,
                            severity: RuleSeverity, message: string, facts: map<string, string>): OutcomeView
  {
    OutcomeView(ruleId, "1.0", "GLOBAL", priority, category, status, severity, RequestInfo,
                message, [], facts)
  }

  /** A missing required header field: NeedsInfo, blocking, request information. */
  function MissingField(ruleId: string, priority: int, message: string): OutcomeView {
    PreflightOutcome(ruleId, priority, Integrity, NeedsInfo, Blocking, message, map[])
  }

  function CheckIf(cond: bool, v: OutcomeView): seq<OutcomeView> {
    if cond then [v] else []
  }

  /** The missing-field outcomes, in the order DOS, payer, place of service, rendering
    * NPI, billing NPI. */
  function HeaderChecks(h: ClaimHeader): (r: seq<OutcomeView>)
    ensures forall v :: v in r ==>
      v.layer == "GLOBAL" && v.status == NeedsInfo && v.severity == Blocking && v.action == RequestInfo
  {
    CheckIf(h.dateOfService.None?, MissingField(MissingDos, 100, DosRequired))
    + CheckIf(IsBlank(h.payerId), MissingField(MissingPayer, 95, PayerRequired))
    + CheckIf(IsBlank(h.placeOfService), MissingField(MissingPos, 90, PosRequired))
    + CheckIf(IsBlank(h.renderingProviderNpi),
              MissingField(MissingRenderingNpi, 85, RenderingNpiRequired))
    + CheckIf(IsBlank(h.billingProviderNpi),
              MissingField(MissingBillingNpi, 80, BillingNpiRequired))
  }

  /** A modifier that is blank or not exactly two characters long. */
  predicate InvalidModifier(m: string) {
    IsBlank(m) || |m| != 2
  }

  predicate IsModifierOutcome(v: OutcomeView) {
    v.ruleId == InvalidModifierId && v.layer == "GLOBAL" && v.status == Warn
    && v.severity == NonBlocking && v.action == RequestInfo
  }

  function ModifierOutcome(code: string, m: string): (v: OutcomeView)
    ensures IsModifierOutcome(v)
  {
    PreflightOutcome(InvalidModifierId, 70, Modifier, Warn, NonBlocking,
                     ModifierLength, map["ProcedureCode" := code, "Modifier" := m])
  }

  /** One outcome per invalid modifier of one procedure, in order. */
  function ModifierChecksOf(code: string, mods: seq<string>): (r: seq<OutcomeView>)
    ensures |r| <= |mods|
    ensures forall v :: v in r ==> IsModifierOutcome(v)
    ensures r == [] <==> forall k :: 0 <= k < |mods| ==> !InvalidModifier(mods[k])
    decreases |mods|
  {
    if mods == [] then []
    else
      var rest := ModifierChecksOf(code, mods[1..]);
      assert forall k :: 1 <= k < |mods| ==> mods[k] == mods[1..][k - 1];
      CheckIf(InvalidModifier(mods[0]), ModifierOutcome(code, mods[0])) + rest
  }

  /** One outcome per invalid modifier of the claim, procedure by procedure. */
  function ModifierChecks(procs: seq<Procedure>): (r: seq<OutcomeView>)
    ensures forall v :: v in r ==> IsModifierOutcome(v)
    ensures r == [] <==> forall i, k :: 0 <= i < |procs| && 0 <= k < |procs[i].modifiers| ==>
      !InvalidModifier(procs[i].modifiers[k])
    decreases |procs|
  {
    if procs == [] then []
    else
      var here := ModifierChecksOf(procs[0].code, procs[0].modifiers);
      var rest := ModifierChecks(procs[1..]);
      assert forall i :: 1 <= i < |procs| ==> procs[i] == procs[1..][i - 1];
      here + rest
  }

  /** All preflight outcomes: header checks first, then modifier checks. */
  function Preflight(claim: Claim): (r: seq<OutcomeView>)
    ensures forall v :: v in r ==> v.layer == "GLOBAL" && v.action == RequestInfo
  {
    HeaderChecks(claim.header) + ModifierChecks(claim.procedures)
  }

  predicate HasRuleId(vs: seq<OutcomeView>, id: string) {
    exists v :: v in vs && v.ruleId == id
  }

  lemma HasRuleIdAppend(a: seq<OutcomeView>, b: seq<OutcomeView>, id: string)
    ensures HasRuleId(a + b, id) <==> HasRuleId(a, id) || HasRuleId(b, id)
  {
  }

  lemma HasRuleIdCheck(cond: bool, v: OutcomeView, id: string)
    ensures HasRuleId(CheckIf(cond, v), id) <==> cond && v.ruleId == id
  {
    if cond { assert v in CheckIf(cond, v); }
  }

  /** The six preflight rule IDs are pairwise different. */
  lemma PreflightIdsDistinct()
    ensures MissingDos != MissingPayer && MissingDos != MissingPos && MissingDos != MissingRenderingNpi
    ensures MissingDos != MissingBillingNpi && MissingPayer != MissingPos
    ensures MissingPayer != MissingRenderingNpi && MissingPayer != MissingBillingNpi
    ensures MissingPos != MissingRenderingNpi && MissingPos != MissingBillingNpi
    ensures MissingRenderingNpi != MissingBillingNpi
    ensures InvalidModifierId !in {MissingDos, MissingPayer, MissingPos, MissingRenderingNpi, MissingBillingNpi}
  {
    assert |MissingDos| == 18 && |MissingPayer| == 20 && |MissingPos| == 18;
    assert |MissingRenderingNpi| == 28 && |MissingBillingNpi| == 26 && |InvalidModifierId| == 23;
    assert MissingDos[15] == 'D' && MissingPos[15] == 'P';
  }

  lemma HeaderChecksIds(h: ClaimHeader, id: string)
    ensures HasRuleId(HeaderChecks(h), id) <==>
      (id == MissingDos && h.dateOfService.None?) || (id == MissingPayer && IsBlank(h.payerId))
      || (id == MissingPos && IsBlank(h.placeOfService))
      || (id == MissingRenderingNpi && IsBlank(h.renderingProviderNpi))
      || (id == MissingBillingNpi && IsBlank(h.billingProviderNpi))
  {
    var c1 := CheckIf(h.dateOfService.None?, MissingField(MissingDos, 100, DosRequired));
    var c2 := CheckIf(IsBlank(h.payerId), MissingField(MissingPayer, 95, PayerRequired));
    var c3 := CheckIf(IsBlank(h.placeOfService), MissingField(MissingPos, 90, PosRequired));
    var c4 := CheckIf(IsBlank(h.renderingProviderNpi),
                      MissingField(MissingRenderingNpi, 85, RenderingNpiRequired));
    var c5 := CheckIf(IsBlank(h.billingProviderNpi),
                      MissingField(MissingBillingNpi, 80, BillingNpiRequired));
    assert HeaderChecks(h) == c1 + c2 + c3 + c4 + c5;
    HasRuleIdAppend(c1 + c2 + c3 + c4, c5, id);
    HasRuleIdAppend(c1 + c2 + c3, c4, id);
    HasRuleIdAppend(c1 + c2, c3, id);
    HasRuleIdAppend(c1, c2, id);
    HasRuleIdCheck(h.dateOfService.None?, MissingField(MissingDos, 100, DosRequired), id);
    HasRuleIdCheck(IsBlank(h.payerId), MissingField(MissingPayer, 95, PayerRequired), id);
    HasRuleIdCheck(IsBlank(h.placeOfService), MissingField(MissingPos, 90, PosRequired), id);
    HasRuleIdCheck(IsBlank(h.renderingProviderNpi),
                   MissingField(MissingRenderingNpi, 85, RenderingNpiRequired), id);
    HasRuleIdCheck(IsBlank(h.billingProviderNpi),
                   MissingField(MissingBillingNpi, 80, BillingNpiRequired), id);
  }

  /** Each missing header field is reported exactly when it is missing. */
  lemma PreflightHeaderFlags(claim: Claim)
    ensures HasRuleId(Preflight(claim), MissingDos) <==> claim.header.dateOfService.None?
    ensures HasRuleId(Preflight(claim), MissingPayer) <==> IsBlank(claim.header.payerId)
    ensures HasRuleId(Preflight(claim), MissingPos) <==> IsBlank(claim.header.placeOfService)
    ensures HasRuleId(Preflight(claim), MissingRenderingNpi) <==> IsBlank(claim.header.renderingProviderNpi)
    ensures HasRuleId(Preflight(claim), MissingBillingNpi) <==> IsBlank(claim.header.billingProviderNpi)
  {
    var h := claim.header;
    var mc := ModifierChecks(claim.procedures);
    PreflightIdsDistinct();
    assert forall id :: id != InvalidModifierId ==> !HasRuleId(mc, id);
    HasRuleIdAppend(HeaderChecks(h), mc, MissingDos);
    HasRuleIdAppend(HeaderChecks(h), mc, MissingPayer);
    HasRuleIdAppend(HeaderChecks(h), mc, MissingPos);
    HasRuleIdAppend(HeaderChecks(h), mc, MissingRenderingNpi);
    HasRuleIdAppend(HeaderChecks(h), mc, MissingBillingNpi);
    HeaderChecksIds(h, MissingDos);
    HeaderChecksIds(h, MissingPayer);
    HeaderChecksIds(h, MissingPos);
    HeaderChecksIds(h, MissingRenderingNpi);
    HeaderChecksIds(h, MissingBillingNpi);
  }

  /** An invalid-modifier outcome is reported exactly when some modifier is blank or
    * not two characters long. */
  lemma PreflightModifierFlags(claim: Claim)
    ensures HasRuleId(Preflight(claim), InvalidModifierId) <==>
      exists i, k :: 0 <= i < |claim.procedures| && 0 <= k < |claim.procedures[i].modifiers|
        && InvalidModifier(claim.procedures[i].modifiers[k])
  {
    var mc := ModifierChecks(claim.procedures);
    PreflightIdsDistinct();
    HasRuleIdAppend(HeaderChecks(claim.header), mc, InvalidModifierId);
    HeaderChecksIds(claim.header, InvalidModifierId);
    if mc != [] { assert mc[0] in mc; }
  }

  // ---------------------------------------------------------------------
  // Pack selection

  /** Each non-blank PayerId, PlanId and State of the pack equals the claim's. */
  predicate MatchesHeader(pack: RulePack, h: ClaimHeader) {
    (IsBlank(pack.payerId) || EqIgnoreCase(pack.payerId, h.payerId))
    && (IsBlank(pack.planId) || EqIgnoreCase(pack.planId, h.planId))
    && (IsBlank(pack.state) || EqIgnoreCase(pack.state, h.state))
  }

  /** The inclusive [EffectiveStart, EffectiveEnd] window contains the date of service;
    * a claim without one is in every window. */
  predicate IsEffectiveOn(pack: RulePack, dos: Option<int>) {
    dos.None? ||
    ((pack.effectiveStart.None? || pack.effectiveStart.value <= dos.value)
     && (pack.effectiveEnd.None? || dos.value <= pack.effectiveEnd.value))
  }

  predicate Applicable(pack: RulePack, h: ClaimHeader) {
    MatchesHeader(pack, h) && IsEffectiveOn(pack, h.dateOfService)
  }

  /** The fallback: packs whose PayerId is DEFAULT, also effective on the date. */
  predicate IsDefaultPack(pack: RulePack, dos: Option<int>) {
    EqIgnoreCase(pack.payerId, "DEFAULT") && IsEffectiveOn(pack, dos)
  }

  function ApplicableTo(h: ClaimHeader): RulePack -> bool { p => Applicable(p, h) }
  function DefaultOn(dos: Option<int>): RulePack -> bool { p => IsDefaultPack(p, dos) }

  /** Layer ordinal ascending, then priority descending. */
  function PackKey(p: RulePack): seq<int> { [LayerOrdinal(p.layer), -p.priority] }

  function SelectRulePacks(packs: seq<RulePack>, h: ClaimHeader): seq<RulePack> {
    var matched := Filter(packs, ApplicableTo(h));
    if matched != [] then SortBy(matched, PackKey)
    else Filter(packs, DefaultOn(h.dateOfService))
  }

  /** The selected packs are exactly the applicable ones, or, when there is none, the
    * effective DEFAULT packs. */
  lemma SelectRulePacksMembers(packs: seq<RulePack>, h: ClaimHeader, p: RulePack)
    ensures (exists q :: q in packs && Applicable(q, h)) ==>
      (p in SelectRulePacks(packs, h) <==> p in packs && Applicable(p, h))
    ensures (forall q :: q in packs ==> !Applicable(q, h)) ==>
      (p in SelectRulePacks(packs, h) <==> p in packs && IsDefaultPack(p, h.dateOfService))
  {
    var matched := Filter(packs, ApplicableTo(h));
    FilterMembers(packs, ApplicableTo(h), p);
    FilterMembers(packs, DefaultOn(h.dateOfService), p);
    if q :| q in packs && Applicable(q, h) {
      FilterMembers(packs, ApplicableTo(h), q);
      SortByPermutes(matched, PackKey);
      assert p in SortBy(matched, PackKey) <==> p in multiset(matched);
    } else if matched != [] {
      FilterMembers(packs, ApplicableTo(h), matched[0]);
    }
  }

  lemma LexLePair(a: int, b: int, c: int, d: int)
    ensures LexLe([a, b], [c, d]) <==> a < c || (a == c && b <= d)
  {
    assert [a, b][1..] == [b] && [c, d][1..] == [d];
    assert [b][1..] == [] && [d][1..] == [];
    assert LexLe([], []);
    assert LexLe([b], [d]) <==> b <= d;
  }

  /** Packs sorted by PackKey are in layer order and, within a layer, by descending
    * priority. */
  lemma PackKeyOrder(s: seq<RulePack>)
    requires SortedBy(s, PackKey)
    ensures forall i, j :: 0 <= i < j < |s| ==>
      LayerOrdinal(s[i].layer) < LayerOrdinal(s[j].layer)
      || (LayerOrdinal(s[i].layer) == LayerOrdinal(s[j].layer) && s[i].priority >= s[j].priority)
  {
    forall i, j | 0 <= i < j < |s|
      ensures LayerOrdinal(s[i].layer) < LayerOrdinal(s[j].layer)
        || (LayerOrdinal(s[i].layer) == LayerOrdinal(s[j].layer) && s[i].priority >= s[j].priority)
    {
      LexLePair(LayerOrdinal(s[i].layer), -s[i].priority, LayerOrdinal(s[j].layer), -s[j].priority);
    }
  }

  /** Selected packs run in layer order GLOBAL, NCCI_MUE, PAYER, CLIENT and, within a
    * layer, by descending priority. */
  lemma SelectRulePacksOrdered(packs: seq<RulePack>, h: ClaimHeader)
    requires exists q :: q in packs && Applicable(q, h)
    ensures var s := SelectRulePacks(packs, h);
      forall i, j :: 0 <= i < j < |s| ==>
        LayerOrdinal(s[i].layer) < LayerOrdinal(s[j].layer)
        || (LayerOrdinal(s[i].layer) == LayerOrdinal(s[j].layer) && s[i].priority >= s[j].priority)
  {
    var q :| q in packs && Applicable(q, h);
    var matched := Filter(packs, ApplicableTo(h));
    FilterMembers(packs, ApplicableTo(h), q);
    assert SelectRulePacks(packs, h) == SortBy(matched, PackKey);
    SortBySorted(matched, PackKey);
    PackKeyOrder(SortBy(matched, PackKey));
  }

  // ---------------------------------------------------------------------
  // Trigger matching.  Each condition below holds vacuously when it is unset.

  predicate CptOk(t: RuleTrigger, claim: Claim) {
    t.cptCodes == [] ||
    exists i :: 0 <= i < |claim.procedures| && ContainsIgnoreCase(t.cptCodes, claim.procedures[i].code)
  }

  predicate IcdOk(t: RuleTrigger, claim: Claim) {
    t.icdCodes == [] ||
    exists i :: 0 <= i < |claim.diagnoses| && ContainsIgnoreCase(t.icdCodes, claim.diagnoses[i].code)
  }

  /** Some diagnosis code starts with some prefix, case-insensitively. */
  predicate HasPrefixMatch(prefixes: seq<string>, claim: Claim) {
    exists i, k :: 0 <= i < |claim.diagnoses| && 0 <= k < |prefixes|
      && StartsWithIgnoreCase(claim.diagnoses[i].code, prefixes[k])
  }

  /** The prefix condition; RequiresIcdMismatch inverts it, so the rule fires only when
    * no diagnosis has any of the prefixes. */
  predicate PrefixOk(t: RuleTrigger, claim: Claim) {
    t.icdPrefixes == [] ||
    (if t.requiresIcdMismatch then !HasPrefixMatch(t.icdPrefixes, claim)
     else HasPrefixMatch(t.icdPrefixes, claim))
  }

  /** For PosSpecialty rules a blank value passes, so that the category validator
    * rather than the matcher reports it. */
  predicate ListedOrExcused(values: seq<string>, value: string, category: RuleCategory) {
    values == [] || (category == PosSpecialty && IsBlank(value)) || ContainsIgnoreCase(values, value)
  }

  /** RequiresDateOfService is inverted: the rule fires only when the date is absent. */
  predicate DateOk(t: RuleTrigger, h: ClaimHeader) {
    !t.requiresDateOfService || h.dateOfService.None?
  }

  predicate AgeOk(t: RuleTrigger, p: Patient) {
    (t.minAge.None? || (p.age.Some? && p.age.value >= t.minAge.value))
    && (t.maxAge.None? || (p.age.Some? && p.age.value <= t.maxAge.value))
  }

  /** The procedure lists every one of `required` among its modifiers, ignoring case. */
  predicate CarriesAll(p: Procedure, required: seq<string>) {
    forall k :: 0 <= k < |required| ==> ContainsIgnoreCase(p.modifiers, required[k])
  }

  /** Some single procedure carries every required modifier. */
  predicate ModifiersOk(t: RuleTrigger, claim: Claim) {
    t.requiredModifiers == [] ||
    exists i :: 0 <= i < |claim.procedures| && CarriesAll(claim.procedures[i], t.requiredModifiers)
  }

  /** The trigger is the conjunction of all its conditions. */
  predicate TriggerMatches(rule: RuleDefinition, claim: Claim) {
    var t := rule.trigger;
    CptOk(t, claim) && IcdOk(t, claim) && PrefixOk(t, claim)
    && ListedOrExcused(t.placeOfService, claim.header.placeOfService, rule.category)
    && DateOk(t, claim.header) && AgeOk(t, claim.patient) && ModifiersOk(t, claim)
    && ListedOrExcused(t.providerSpecialties, claim.header.renderingProviderSpecialty, rule.category)
  }

  /** The trigger, condition by condition, as the matcher tests them in turn: every set
    * condition must hold, an ICD-prefix condition with RequiresIcdMismatch holds only
    * when no diagnosis has any of the prefixes, RequiresDateOfService holds only when the
    * date is absent, and a PosSpecialty rule lets a blank place of service or specialty
    * through. */
  lemma TriggerMatchesExactly(rule: RuleDefinition, claim: Claim)
    ensures TriggerMatches(rule, claim) <==>
      && (rule.trigger.cptCodes != [] ==>
            exists i :: 0 <= i < |claim.procedures| && ContainsIgnoreCase(rule.trigger.cptCodes, claim.procedures[i].code))
      && (rule.trigger.icdCodes != [] ==>
            exists i :: 0 <= i < |claim.diagnoses| && ContainsIgnoreCase(rule.trigger.icdCodes, claim.diagnoses[i].code))
      && (rule.trigger.icdPrefixes != [] && !rule.trigger.requiresIcdMismatch ==>
            exists i, k :: 0 <= i < |claim.diagnoses| && 0 <= k < |rule.trigger.icdPrefixes|
              && StartsWithIgnoreCase(claim.diagnoses[i].code, rule.trigger.icdPrefixes[k]))
      && (rule.trigger.icdPrefixes != [] && rule.trigger.requiresIcdMismatch ==>
            forall i, k :: 0 <= i < |claim.diagnoses| && 0 <= k < |rule.trigger.icdPrefixes|
              ==> !StartsWithIgnoreCase(claim.diagnoses[i].code, rule.trigger.icdPrefixes[k]))
      && (rule.trigger.placeOfService != [] && !(rule.category == PosSpecialty && IsBlank(claim.header.placeOfService)) ==>
            ContainsIgnoreCase(rule.trigger.placeOfService, claim.header.placeOfService))
      && (rule.trigger.requiresDateOfService ==> claim.header.dateOfService.None?)
      && (rule.trigger.minAge.Some? ==> claim.patient.age.Some? && claim.patient.age.value >= rule.trigger.minAge.value)
      && (rule.trigger.maxAge.Some? ==> claim.patient.age.Some? && claim.patient.age.value <= rule.trigger.maxAge.value)
      && (rule.trigger.requiredModifiers != [] ==>
            exists i :: 0 <= i < |claim.procedures| && CarriesAll(claim.procedures[i], rule.trigger.requiredModifiers))
      && (rule.trigger.providerSpecialties != [] && !(rule.category == PosSpecialty && IsBlank(claim.header.renderingProviderSpecialty)) ==>
            ContainsIgnoreCase(rule.trigger.providerSpecialties, claim.header.renderingProviderSpecialty))
  {
    CptOkExactly(rule.trigger, claim);
    IcdOkExactly(rule.trigger, claim);
    PrefixOkExactly(rule.trigger, claim);
    ListedOrExcusedExactly(rule.trigger.placeOfService, claim.header.placeOfService, rule.category);
    ListedOrExcusedExactly(rule.trigger.providerSpecialties, claim.header.renderingProviderSpecialty, rule.category);
    assert TriggerMatches(rule, claim) <==>
      CptOk(rule.trigger, claim) && IcdOk(rule.trigger, claim) && PrefixOk(rule.trigger, claim)
      && ListedOrExcused(rule.trigger.placeOfService, claim.header.placeOfService, rule.category)
      && DateOk(rule.trigger, claim.header) && AgeOk(rule.trigger, claim.patient) && ModifiersOk(rule.trigger, claim)
      && ListedOrExcused(rule.trigger.providerSpecialties, claim.header.renderingProviderSpecialty, rule.category);
  }

  lemma CptOkExactly(t: RuleTrigger, claim: Claim)
    ensures CptOk(t, claim) <==> (t.cptCodes != [] ==>
      exists i :: 0 <= i < |claim.procedures| && ContainsIgnoreCase(t.cptCodes, claim.procedures[i].code))
  {
  }

  lemma IcdOkExactly(t: RuleTrigger, claim: Claim)
    ensures IcdOk(t, claim) <==> (t.icdCodes != [] ==>
      exists i :: 0 <= i < |claim.diagnoses| && ContainsIgnoreCase(t.icdCodes, claim.diagnoses[i].code))
  {
  }

  lemma PrefixOkExactly(t: RuleTrigger, claim: Claim)
    ensures PrefixOk(t, claim) <==>
      (t.icdPrefixes != [] && !t.requiresIcdMismatch ==>
        exists i, k :: 0 <= i < |claim.diagnoses| && 0 <= k < |t.icdPrefixes|
          && StartsWithIgnoreCase(claim.diagnoses[i].code, t.icdPrefixes[k]))
      && (t.icdPrefixes != [] && t.requiresIcdMismatch ==>
        forall i, k :: 0 <= i < |claim.diagnoses| && 0 <= k < |t.icdPrefixes|
          ==> !StartsWithIgnoreCase(claim.diagnoses[i].code, t.icdPrefixes[k]))
  {
  }

  lemma ListedOrExcusedExactly(values: seq<string>, value: string, category: RuleCategory)
    ensures ListedOrExcused(values, value, category) <==>
      (values != [] && !(category == PosSpecialty && IsBlank(value)) ==> ContainsIgnoreCase(values, value))
  {
  }

  /** RequiresIcdMismatch turns the prefix condition into its negation. */
  lemma MismatchInvertsPrefixes(t: RuleTrigger, claim: Claim)
    requires t.icdPrefixes != []
    ensures PrefixOk(t.(requiresIcdMismatch := true), claim) <==> !PrefixOk(t.(requiresIcdMismatch := false), claim)
  {
  }

  /** Outside the PosSpecialty category a blank place of service fails a place-of-service
    * list that has no blank entry; inside it, the list does not stop the rule. */
  lemma BlankPosExcusedOnlyForPosSpecialty(rule: RuleDefinition, claim: Claim)
    requires rule.trigger.placeOfService != [] && IsBlank(claim.header.placeOfService)
    requires forall k :: 0 <= k < |rule.trigger.placeOfService| ==> !IsBlank(rule.trigger.placeOfService[k])
    ensures rule.category != PosSpecialty ==> !TriggerMatches(rule, claim)
    ensures rule.category == PosSpecialty ==>
      ListedOrExcused(rule.trigger.placeOfService, claim.header.placeOfService, rule.category)
  {
  }

  function Fires(claim: Claim): RuleDefinition -> bool { r => TriggerMatches(r, claim) }

  // ---------------------------------------------------------------------
  // Outcome building

  /** The IDs of the evidence entries whose source is one of `sources`, in claim order. */
  function MatchingEvidenceIds(evidence: seq<SupportingEvidence>, sources: seq<string>): (ids: seq<string>)
    ensures |ids| <= |evidence|
    decreases |evidence|
  {
    if evidence == [] then []
    else
      (if ContainsIgnoreCase(sources, evidence[0].source) then [evidence[0].evidenceId] else [])
      + MatchingEvidenceIds(evidence[1..], sources)
  }

  /** An evidence source is required when one of the required sources equals it. */
  ghost predicate PointsTo(evidence: seq<SupportingEvidence>, sources: seq<string>, x: string) {
    exists j :: 0 <= j < |evidence| && evidence[j].evidenceId == x && ContainsIgnoreCase(sources, evidence[j].source)
  }

  /** The pointers are exactly the IDs of evidence from a required source. */
  lemma {:induction false} MatchingEvidenceIdsMembers(evidence: seq<SupportingEvidence>, sources: seq<string>, x: string)
    ensures x in MatchingEvidenceIds(evidence, sources) <==> PointsTo(evidence, sources, x)
    decreases |evidence|
  {
    if evidence != [] {
      MatchingEvidenceIdsMembers(evidence[1..], sources, x);
      assert forall j :: 1 <= j < |evidence| ==> evidence[j] == evidence[1..][j - 1];
      if PointsTo(evidence, sources, x) {
        var j :| 0 <= j < |evidence| && evidence[j].evidenceId == x && ContainsIgnoreCase(sources, evidence[j].source);
        if j > 0 { assert PointsTo(evidence[1..], sources, x); }
      }
    }
  }

  /** Evidence pointers: none unless the rule requires evidence sources. */
  function EvidencePointers(rule: RuleDefinition, claim: Claim): (ids: seq<string>)
    ensures rule.evidence.requiredSources == [] ==> ids == []
    ensures |ids| <= |claim.evidence|
  {
    if rule.evidence.requiredSources == [] then []
    else MatchingEvidenceIds(claim.evidence, rule.evidence.requiredSources)
  }

  /** Evidence pointers are exactly the IDs of claim evidence whose source is required. */
  lemma EvidencePointersMembers(rule: RuleDefinition, claim: Claim, x: string)
    ensures x in EvidencePointers(rule, claim) <==> PointsTo(claim.evidence, rule.evidence.requiredSources, x)
  {
    MatchingEvidenceIdsMembers(claim.evidence, rule.evidence.requiredSources, x);
  }

  function TriggerFacts(pack: RulePack): map<string, string> {
    map["PackId" := pack.packId, "Layer" := pack.layer, "PayerId" := pack.payerId,
        "PlanId" := pack.planId, "State" := pack.state]
  }

  /** The outcome of a firing rule before category validation. */
  function BuildOutcome(rule: RuleDefinition, claim: Claim, pack: RulePack): (v: OutcomeView)
    ensures v.ruleId == rule.ruleId && v.ruleVersion == rule.ruleVersion && v.priority == rule.priority
    ensures v.category == rule.category && v.layer == pack.layer
    ensures v.status == rule.action.status && v.severity == rule.action.severity && v.action == rule.action.action
    ensures v.message == if IsBlank(rule.message) then rule.evidence.message else rule.message
    ensures v.evidencePointers == EvidencePointers(rule, claim)
  {
    OutcomeView(rule.ruleId, rule.ruleVersion, pack.layer, rule.priority, rule.category,
                rule.action.status, rule.action.severity, rule.action.action,
                if IsBlank(rule.message) then rule.evidence.message else rule.message,
                EvidencePointers(rule, claim), TriggerFacts(pack))
  }

  /** A category validator (IRuleCategoryValidator.Validate) as a function from the
    * rule, the built outcome and the claim to the refined outcome. */
  type Refiner = (RuleDefinition, OutcomeView, Claim) -> OutcomeView

  /** The registered validators, keyed by the category each one handles. */
  type Validators = map<RuleCategory, Refiner>

  /** Every registered validator leaves the identity fields of an outcome alone. */
  ghost predicate KeepsIdentity(vals: Validators) {
    forall c, rule, v, claim :: c in vals ==> SameIdentity(vals[c](rule, v, claim), v)
  }

  /** The three category validators of the service, with the history service they
    * consult. */
  function StandardValidators(history: Freq.History): (vals: Validators)
    ensures vals.Keys == {Auth, Frequency, PosSpecialty}
  {
    map[Auth := (rule: RuleDefinition, v: OutcomeView, claim: Claim) => Auth.Refine(rule, v),
        Frequency := (rule: RuleDefinition, v: OutcomeView, claim: Claim) => Freq.Refine(rule, v, claim, history),
        PosSpecialty := (rule: RuleDefinition, v: OutcomeView, claim: Claim) => Pos.Refine(rule, v, claim)]
  }

  lemma StandardValidatorsKeepIdentity(history: Freq.History)
    ensures KeepsIdentity(StandardValidators(history))
  {
    var vals := StandardValidators(history);
    forall c, rule, v, claim | c in vals ensures SameIdentity(vals[c](rule, v, claim), v) {
      if c == Auth {
        assert vals[c](rule, v, claim) == Auth.Refine(rule, v);
      } else if c == Frequency {
        assert vals[c](rule, v, claim) == Freq.Refine(rule, v, claim, history);
      } else {
        assert vals[c](rule, v, claim) == Pos.Refine(rule, v, claim);
      }
    }
  }

  /** Category validation: the registered validator of the rule's category, if any. */
  function Validate(rule: RuleDefinition, v: OutcomeView, claim: Claim, vals: Validators): (r: OutcomeView)
    ensures rule.category !in vals ==> r == v
    ensures KeepsIdentity(vals) ==> SameIdentity(r, v)
  {
    if rule.category in vals then vals[rule.category](rule, v, claim) else v
  }

  function OutcomeFor(rule: RuleDefinition, pack: RulePack, claim: Claim, vals: Validators): OutcomeView {
    Validate(rule, BuildOutcome(rule, claim, pack), claim, vals)
  }

  /** A pack's rules by descending priority, ties in catalog order. */
  function RuleKey(r: RuleDefinition): seq<int> { [-r.priority] }

  function OrderedRules(pack: RulePack): seq<RuleDefinition> { SortBy(pack.rules, RuleKey) }

  /** The outcome of one rule of a pack, if it fires. */
  function FiredRule(rule: RuleDefinition, pack: RulePack, claim: Claim, vals: Validators): (r: seq<OutcomeView>)
    ensures |r| <= 1
    ensures r != [] <==> TriggerMatches(rule, claim)
  {
    if TriggerMatches(rule, claim) then [OutcomeFor(rule, pack, claim, vals)] else []
  }

  function RuleOutcomes(pack: RulePack, claim: Claim, vals: Validators): RuleDefinition -> seq<OutcomeView> {
    rule => FiredRule(rule, pack, claim, vals)
  }

  function OutcomeOf(pack: RulePack, claim: Claim, vals: Validators): RuleDefinition -> OutcomeView {
    rule => OutcomeFor(rule, pack, claim, vals)
  }

  /** The outcomes of one pack: rule by rule in priority order, the outcome of each
    * rule that fires. */
  function Fired(pack: RulePack, claim: Claim, vals: Validators): seq<OutcomeView> {
    FlatMap(OrderedRules(pack), RuleOutcomes(pack, claim, vals))
  }

  /** The outcomes of one pack are the outcomes of its firing rules, in priority order. */
  lemma FiredIsFilter(pack: RulePack, claim: Claim, vals: Validators)
    ensures Fired(pack, claim, vals) == Map(Filter(OrderedRules(pack), Fires(claim)), OutcomeOf(pack, claim, vals))
  {
    var rules := OrderedRules(pack);
    FlatMapOfOptional(rules, |rules|, RuleOutcomes(pack, claim, vals), Fires(claim), OutcomeOf(pack, claim, vals));
    assert rules[..|rules|] == rules;
  }

  function PackOutcomes(claim: Claim, vals: Validators): RulePack -> seq<OutcomeView> {
    pack => Fired(pack, claim, vals)
  }

  /** The outcomes of a list of packs, pack after pack. */
  function FiredAll(packs: seq<RulePack>, claim: Claim, vals: Validators): seq<OutcomeView> {
    FlatMap(packs, PackOutcomes(claim, vals))
  }

  /** One outcome per firing rule of the pack. */
  lemma FiredMembers(pack: RulePack, claim: Claim, vals: Validators, v: OutcomeView)
    ensures v in Fired(pack, claim, vals) <==>
      exists r :: r in pack.rules && TriggerMatches(r, claim) && v == OutcomeFor(r, pack, claim, vals)
  {
    var ordered := OrderedRules(pack);
    FlatMapOptionalMembers(ordered, RuleOutcomes(pack, claim, vals), Fires(claim), OutcomeOf(pack, claim, vals), v);
    forall r ensures r in ordered <==> r in pack.rules {
      SortByMembers(pack.rules, RuleKey, r);
    }
  }

  /** v is the outcome of a firing rule of one of the packs. */
  ghost predicate FiredFrom(packs: seq<RulePack>, claim: Claim, vals: Validators, v: OutcomeView) {
    exists p, r :: p in packs && r in p.rules && TriggerMatches(r, claim) && v == OutcomeFor(r, p, claim, vals)
  }

  /** One outcome per firing rule of each pack, and nothing else. */
  lemma FiredAllMembers(packs: seq<RulePack>, claim: Claim, vals: Validators, v: OutcomeView)
    ensures v in FiredAll(packs, claim, vals) <==> FiredFrom(packs, claim, vals, v)
  {
    var g := PackOutcomes(claim, vals);
    FlatMapUpToMembers(packs, |packs|, g, v);
    if v in FiredAll(packs, claim, vals) {
      var i :| 0 <= i < |packs| && v in g(packs[i]);
      FiredMembers(packs[i], claim, vals, v);
    }
    if FiredFrom(packs, claim, vals, v) {
      var p, r :| p in packs && r in p.rules && TriggerMatches(r, claim) && v == OutcomeFor(r, p, claim, vals);
      var i :| 0 <= i < |packs| && packs[i] == p;
      FiredMembers(p, claim, vals, v);
      assert v in g(packs[i]);
    }
  }

  /** An outcome's key in the order of a pack's rules. */
  function OutcomeKey(v: OutcomeView): seq<int> { [-v.priority] }

  /** Validators that keep identity fields keep the rule's priority. */
  lemma OutcomeOfKeepsKey(pack: RulePack, claim: Claim, vals: Validators)
    requires KeepsIdentity(vals)
    ensures forall r :: OutcomeKey(OutcomeOf(pack, claim, vals)(r)) == RuleKey(r)
  {
    forall r ensures OutcomeKey(OutcomeOf(pack, claim, vals)(r)) == RuleKey(r) {
      assert OutcomeOf(pack, claim, vals)(r).priority == r.priority;
    }
  }

  lemma OutcomeKeyOrder(f: seq<OutcomeView>)
    requires SortedBy(f, OutcomeKey)
    ensures forall i, j :: 0 <= i < j < |f| ==> f[i].priority >= f[j].priority
  {
    forall i, j | 0 <= i < j < |f| ensures f[i].priority >= f[j].priority {
      assert [-f[i].priority][1..] == [] && [-f[j].priority][1..] == [];
    }
  }

  /** Within one pack the outcomes come by descending rule priority. */
  lemma FiredByPriority(pack: RulePack, claim: Claim, vals: Validators)
    requires KeepsIdentity(vals)
    ensures var f := Fired(pack, claim, vals);
      forall i, j :: 0 <= i < j < |f| ==> f[i].priority >= f[j].priority
  {
    var fs := Filter(OrderedRules(pack), Fires(claim));
    SortBySorted(pack.rules, RuleKey);
    FilterSorted(OrderedRules(pack), Fires(claim), RuleKey);
    OutcomeOfKeepsKey(pack, claim, vals);
    MapSorted(fs, OutcomeOf(pack, claim, vals), RuleKey, OutcomeKey);
    FiredIsFilter(pack, claim, vals);
    OutcomeKeyOrder(Fired(pack, claim, vals));
  }

  // ---------------------------------------------------------------------
  // Winning rule

  /** The descending sort key of the winning-rule selector: blocking first, then
    * failing, then the later layer, then the higher priority. */
  function WinKey(v: OutcomeView): (k: seq<int>)
    ensures |k| == 4
  {
    [if v.severity == Blocking then 1 else 0, if v.status == Fail then 1 else 0,
     LayerOrdinal(v.layer), v.priority]
  }

  /** The index of the first outcome whose key is maximal. */
  function WinnerIndex(vs: seq<OutcomeView>): (w: nat)
    requires vs != []
    ensures w < |vs|
  {
    FirstMaxIndex(vs, WinKey)
  }

  lemma LexLe4(a: seq<int>, b: seq<int>)
    requires |a| == 4 && |b| == 4
    ensures LexLe(a, b) <==>
      a[0] < b[0] || (a[0] == b[0] && (a[1] < b[1] || (a[1] == b[1] &&
        (a[2] < b[2] || (a[2] == b[2] && a[3] <= b[3])))))
  {
    var a1, b1 := a[1..], b[1..];
    var a2, b2 := a1[1..], b1[1..];
    var a3, b3 := a2[1..], b2[1..];
    assert a3[1..] == [] && b3[1..] == [];
    assert LexLe(a3, b3) <==> a3[0] < b3[0] || a3[0] == b3[0];
    assert LexLe(a2, b2) <==> a2[0] < b2[0] || (a2[0] == b2[0] && LexLe(a3, b3));
    assert LexLe(a1, b1) <==> a1[0] < b1[0] || (a1[0] == b1[0] && LexLe(a2, b2));
    assert a1[0] == a[1] && a2[0] == a[2] && a3[0] == a[3];
    assert b1[0] == b[1] && b2[0] == b[2] && b3[0] == b[3];
  }

  /** The winner beats every other outcome: no other outcome is blocking unless the
    * winner is; among equally blocking outcomes, none fails unless the winner does;
    * then none sits in a later layer; then none has a higher priority.  An earlier
    * outcome with the same four keys would have won instead. */
  lemma WinnerIsBest(vs: seq<OutcomeView>, j: nat)
    requires j < |vs|
    ensures var w := vs[WinnerIndex(vs)];
      && (vs[j].severity == Blocking ==> w.severity == Blocking)
      && ((vs[j].severity == Blocking <==> w.severity == Blocking) && vs[j].status == Fail ==> w.status == Fail)
      && ((vs[j].severity == Blocking <==> w.severity == Blocking) && (vs[j].status == Fail <==> w.status == Fail)
          ==> LayerOrdinal(vs[j].layer) <= LayerOrdinal(w.layer))
      && (((vs[j].severity == Blocking <==> w.severity == Blocking) && (vs[j].status == Fail <==> w.status == Fail)
           && LayerOrdinal(vs[j].layer) == LayerOrdinal(w.layer)) ==> vs[j].priority <= w.priority)
    ensures j < WinnerIndex(vs) ==> WinKey(vs[j]) != WinKey(vs[WinnerIndex(vs)])
  {
    FirstMaxIndexIsFirstMax(vs, WinKey);
    LexLe4(WinKey(vs[j]), WinKey(vs[WinnerIndex(vs)]));
  }

  /** The selector is the first element of the stable descending sort by WinKey, as
    * OrderByDescending(...).ThenByDescending(...).First() computes it. */
  lemma WinnerIsHeadOfDescendingSort(vs: seq<OutcomeView>)
    requires vs != []
    ensures SortBy(vs, NegKey(WinKey))[0] == vs[WinnerIndex(vs)]
  {
    FirstMaxIsHeadOfDescendingSort(vs, WinKey);
  }

  // ---------------------------------------------------------------------
  // Aggregate status

  /** How bad a status is: Fail over NeedsInfo over Warn over anything else. */
  function Rank(s: RuleStatus): int {
    match s
    case Fail => 3
    case NeedsInfo => 2
    case Warn => 1
    case _ => 0
  }

  predicate IsBlockingFail(v: OutcomeView) { v.status == Fail && v.severity == Blocking }

  /** Some outcome satisfies p. */
  predicate AnyWith(vs: seq<OutcomeView>, p: OutcomeView -> bool) {
    exists i :: 0 <= i < |vs| && p(vs[i])
  }

  function HasStatus(s: RuleStatus): OutcomeView -> bool { (v: OutcomeView) => v.status == s }

  /** The aggregate (status, severity): the first of blocking Fail, NeedsInfo, Warn
    * that some outcome has, else Pass; only a blocking Fail aggregates as blocking. */
  function Aggregate(vs: seq<OutcomeView>): (r: (RuleStatus, RuleSeverity))
    ensures r.1 == Blocking <==> r.0 == Fail
    ensures r.0 == Fail || r.0 == NeedsInfo || r.0 == Warn || r.0 == Pass
  {
    if AnyWith(vs, IsBlockingFail) then (Fail, Blocking)
    else if AnyWith(vs, HasStatus(NeedsInfo)) then (NeedsInfo, NonBlocking)
    else if AnyWith(vs, HasStatus(Warn)) then (Warn, NonBlocking)
    else (Pass, NonBlocking)
  }

  /** The aggregate is at least as bad as every outcome, except that a non-blocking
    * Fail counts for nothing. */
  lemma AggregateDominates(vs: seq<OutcomeView>, i: int)
    requires 0 <= i < |vs|
    ensures vs[i].status != Fail ==> Rank(vs[i].status) <= Rank(Aggregate(vs).0)
    ensures IsBlockingFail(vs[i]) ==> Aggregate(vs) == (Fail, Blocking)
  {
    assert HasStatus(vs[i].status)(vs[i]);
  }

  /** A lone non-blocking Fail aggregates to Pass. */
  lemma LoneNonBlockingFailPasses(v: OutcomeView)
    requires v.status == Fail && v.severity != Blocking
    ensures Aggregate([v]) == (Pass, NonBlocking)
  {
  }

  lemma AnyWithAppend(vs: seq<OutcomeView>, ws: seq<OutcomeView>, p: OutcomeView -> bool)
    ensures AnyWith(vs + ws, p) <==> AnyWith(vs, p) || AnyWith(ws, p)
  {
    var a := vs + ws;
    if AnyWith(vs, p) {
      var i :| 0 <= i < |vs| && p(vs[i]);
      assert a[i] == vs[i];
    }
    if AnyWith(a, p) {
      var i :| 0 <= i < |a| && p(a[i]);
      if i >= |vs| { assert a[i] == ws[i - |vs|]; }
    }
    if AnyWith(ws, p) {
      var i :| 0 <= i < |ws| && p(ws[i]);
      assert a[|vs| + i] == ws[i];
    }
  }

  /** Adding outcomes never makes the aggregate less severe. */
  lemma AggregateMonotone(vs: seq<OutcomeView>, ws: seq<OutcomeView>)
    ensures Rank(Aggregate(vs).0) <= Rank(Aggregate(vs + ws).0)
    ensures Rank(Aggregate(ws).0) <= Rank(Aggregate(vs + ws).0)
  {
    AnyWithAppend(vs, ws, IsBlockingFail);
    AnyWithAppend(vs, ws, HasStatus(NeedsInfo));
    AnyWithAppend(vs, ws, HasStatus(Warn));
  }

  lemma AnyWithPermutation(vs: seq<OutcomeView>, ws: seq<OutcomeView>, p: OutcomeView -> bool)
    requires multiset(vs) == multiset(ws)
    ensures AnyWith(vs, p) ==> AnyWith(ws, p)
  {
    if AnyWith(vs, p) {
      var i :| 0 <= i < |vs| && p(vs[i]);
      assert vs[i] in multiset(ws);
      var j :| 0 <= j < |ws| && ws[j] == vs[i];
    }
  }

  /** The aggregate depends only on which outcomes there are, not on their order. */
  lemma AggregatePermutation(vs: seq<OutcomeView>, ws: seq<OutcomeView>)
    requires multiset(vs) == multiset(ws)
    ensures Aggregate(vs) == Aggregate(ws)
  {
    AnyWithPermutation(vs, ws, IsBlockingFail);
    AnyWithPermutation(ws, vs, IsBlockingFail);
    AnyWithPermutation(vs, ws, HasStatus(NeedsInfo));
    AnyWithPermutation(ws, vs, HasStatus(NeedsInfo));
    AnyWithPermutation(vs, ws, HasStatus(Warn));
    AnyWithPermutation(ws, vs, HasStatus(Warn));
  }

  // ---------------------------------------------------------------------
  // Actions

  function ActionOf(v: OutcomeView): RuleActionType { v.action }

  function SameAction(a: RuleActionType): RuleActionType { a }

  /** The fired actions, one per outcome, in outcome order. */
  function FiredActions(vs: seq<OutcomeView>): (acts: seq<RuleActionType>)
    ensures |acts| == |vs| && forall i :: 0 <= i < |vs| ==> acts[i] == vs[i].action
  {
    seq(|vs|, i requires 0 <= i < |vs| => vs[i].action)
  }

  /** Each fired action exactly once, in order of first appearance. */
  function Actions(vs: seq<OutcomeView>): (r: seq<RuleActionType>)
    ensures forall i, j :: 0 <= i < j < |r| ==> r[i] != r[j]
    ensures forall a :: a in r <==> exists i :: 0 <= i < |vs| && vs[i].action == a
    ensures forall i, j :: 0 <= i < j < |r| ==>
      r[i] in KeySet(FiredActions(vs), SameAction) && r[j] in KeySet(FiredActions(vs), SameAction)
      && FirstIndex(FiredActions(vs), SameAction, r[i]) < FirstIndex(FiredActions(vs), SameAction, r[j])
  {
    var r := FirstByKey(FiredActions(vs), SameAction);
    ActionsOrdered(FiredActions(vs));
    ActionsMembers(vs);
    assert r == FirstByKey(FiredActions(vs), SameAction);
    r
  }

  /** The kept actions appear in the order in which they first fire. */
  lemma ActionsOrdered(acts: seq<RuleActionType>)
    ensures var r := FirstByKey(acts, SameAction);
      forall i, j :: 0 <= i < j < |r| ==>
        r[i] in KeySet(acts, SameAction) && r[j] in KeySet(acts, SameAction)
        && FirstIndex(acts, SameAction, r[i]) < FirstIndex(acts, SameAction, r[j])
  {
    FirstByKeyOrder(acts, SameAction);
  }

  /** The kept actions are exactly the fired ones. */
  lemma ActionsMembers(vs: seq<OutcomeView>)
    ensures var r := FirstByKey(FiredActions(vs), SameAction);
      forall a :: a in r <==> exists i :: 0 <= i < |vs| && vs[i].action == a
  {
    var acts := FiredActions(vs);
    var r := FirstByKey(acts, SameAction);
    forall a ensures a in r <==> exists i :: 0 <= i < |vs| && vs[i].action == a {
      if a in r {
        var i :| 0 <= i < |r| && r[i] == a;
        assert SameAction(r[i]) in KeySet(r, SameAction);
        var j :| 0 <= j < |acts| && SameAction(acts[j]) == a;
        assert vs[j].action == a;
      }
      if i :| 0 <= i < |vs| && vs[i].action == a {
        assert SameAction(acts[i]) in KeySet(acts, SameAction);
        var j :| 0 <= j < |r| && SameAction(r[j]) == a;
      }
    }
  }

  // ---------------------------------------------------------------------
  // Evaluation

  const NoPacksNote := "No rule packs applicable."
  const NoRulesNote := "No rules fired."

  /** The value an evaluation produces. */
  datatype Evaluation = Evaluation(
    status: RuleStatus,
    severity: RuleSeverity,
    actions: seq<RuleActionType>,
    winner: Option<OutcomeView>,
    outcomes: seq<OutcomeView>,
    notes: seq<string>)

  /** Preflight outcomes, then the outcomes of the selected packs in order. */
  function AllOutcomes(packs: seq<RulePack>, claim: Claim, vals: Validators): seq<OutcomeView> {
    Preflight(claim) + FiredAll(SelectRulePacks(packs, claim.header), claim, vals)
  }

  /** IRulesEngine.Evaluate as a function of the catalog, the claim and the validators. */
  function EvaluationOf(packs: seq<RulePack>, claim: Claim, vals: Validators): (e: Evaluation)
    ensures e.outcomes == AllOutcomes(packs, claim, vals)
    ensures NoPacksNote in e.notes <==> SelectRulePacks(packs, claim.header) == []
  {
    Summary(SelectRulePacks(packs, claim.header) == [], AllOutcomes(packs, claim, vals))
  }

  /** The evaluation result for a list of outcomes; `noPacks` says that no pack was
    * selected, which the notes record.  The status is the aggregate of the outcomes,
    * preflight ones included, the actions are their distinct actions in order of first
    * appearance (`Actions`), and the winner is the first outcome with the highest key;
    * "No rules fired." is noted when packs were selected and nothing was reported. */
  function Summary(noPacks: bool, outs: seq<OutcomeView>): (e: Evaluation)
    ensures e.outcomes == outs
    ensures e.winner.Some? <==> outs != []
    ensures outs != [] ==> e.winner.value == outs[WinnerIndex(outs)]
    ensures (e.status, e.severity) == Aggregate(outs)
    ensures forall a :: a in e.actions <==> exists i :: 0 <= i < |outs| && outs[i].action == a
    ensures e.actions == Actions(outs)
    ensures NoPacksNote in e.notes <==> noPacks
    ensures NoRulesNote in e.notes <==> !noPacks && outs == []
  {
    assert NoPacksNote != NoRulesNote by { assert |NoPacksNote| != |NoRulesNote|; }
    if outs == [] then Evaluation(Pass, NonBlocking, [], None, [], [if noPacks then NoPacksNote else NoRulesNote])
    else
      var agg := Aggregate(outs);
      Evaluation(agg.0, agg.1, Actions(outs), Some(outs[WinnerIndex(outs)]), outs,
                 if noPacks then [NoPacksNote] else [])
  }

  /** A claim outcome set that came only from configured rules: every outcome past the
    * preflight ones is the outcome of a firing rule of a selected pack. */
  lemma EvaluationOutcomes(packs: seq<RulePack>, claim: Claim, vals: Validators, v: OutcomeView)
    ensures v in EvaluationOf(packs, claim, vals).outcomes <==>
      v in Preflight(claim) || FiredFrom(SelectRulePacks(packs, claim.header), claim, vals, v)
  {
    FiredAllMembers(SelectRulePacks(packs, claim.header), claim, vals, v);
  }

  /** A firing rule of a selected pack is reported, validated by its category. */
  lemma FiringRuleReported(packs: seq<RulePack>, claim: Claim, vals: Validators, p: RulePack, r: RuleDefinition)
    requires p in SelectRulePacks(packs, claim.header) && r in p.rules && TriggerMatches(r, claim)
    ensures OutcomeFor(r, p, claim, vals) in EvaluationOf(packs, claim, vals).outcomes
  {
    EvaluationOutcomes(packs, claim, vals, OutcomeFor(r, p, claim, vals));
  }

  /** With no pack selected only the preflight outcomes are reported, and they alone
    * decide: NeedsInfo exactly when a header field is missing, Warn when only a modifier
    * is invalid, Pass with no winning rule when the claim passes every preflight check. */
  lemma NoPackSelected(packs: seq<RulePack>, claim: Claim, vals: Validators)
    requires SelectRulePacks(packs, claim.header) == []
    ensures var e := EvaluationOf(packs, claim, vals);
      && NoPacksNote in e.notes && e.outcomes == Preflight(claim)
      && (e.winner.Some? <==> Preflight(claim) != [])
      && e.severity == NonBlocking
      && (e.status == NeedsInfo <==> HeaderMissing(claim.header))
      && (e.status == Warn <==> !HeaderMissing(claim.header) && ModifierChecks(claim.procedures) != [])
      && (e.status == Pass <==> Preflight(claim) == [])
  {
    assert FiredAll([], claim, vals) == [];
    assert AllOutcomes(packs, claim, vals) == Preflight(claim);
    PreflightAggregate(claim);
  }

  /** The aggregate of the preflight outcomes alone. */
  lemma PreflightAggregate(claim: Claim)
    ensures Aggregate(Preflight(claim)) ==
      (if HeaderMissing(claim.header) then NeedsInfo
       else if ModifierChecks(claim.procedures) != [] then Warn else Pass, NonBlocking)
  {
    var hc := HeaderChecks(claim.header);
    var mc := ModifierChecks(claim.procedures);
    var outs := Preflight(claim);
    assert outs == hc + mc;
    HeaderChecksEmpty(claim.header);
    assert !AnyWith(outs, IsBlockingFail) by {
      forall i | 0 <= i < |outs| ensures !IsBlockingFail(outs[i]) {
        assert outs[i] in hc || outs[i] in mc;
      }
    }
    if HeaderMissing(claim.header) {
      assert hc[0] in hc && outs[0] == hc[0];
      assert HasStatus(NeedsInfo)(outs[0]);
    } else {
      assert outs == mc;
      assert !AnyWith(outs, HasStatus(NeedsInfo)) by {
        forall i | 0 <= i < |outs| ensures outs[i].status != NeedsInfo {
          assert outs[i] in mc;
        }
      }
      if mc != [] {
        assert mc[0] in mc;
        assert HasStatus(Warn)(outs[0]);
      }
    }
  }

  /** Some required header field is missing. */
  predicate HeaderMissing(h: ClaimHeader) {
    h.dateOfService.None? || IsBlank(h.payerId) || IsBlank(h.placeOfService)
    || IsBlank(h.renderingProviderNpi) || IsBlank(h.billingProviderNpi)
  }

  /** The header checks report something exactly when a field is missing. */
  lemma HeaderChecksEmpty(h: ClaimHeader)
    ensures HeaderChecks(h) == [] <==> !HeaderMissing(h)
  {
  }

  /** Without any configured pack the evaluation notes that no pack applies; a claim
    * that passes every preflight check keeps the initial Pass / NonBlocking status and
    * no winning rule, and one missing its date of service needs information. */
  lemma NoPacksConfigured(claim: Claim, vals: Validators)
    ensures var e := EvaluationOf([], claim, vals);
      && NoPacksNote in e.notes && e.outcomes == Preflight(claim)
      && (Preflight(claim) == [] ==> e.status == Pass && e.severity == NonBlocking && e.winner.None?)
      && (claim.header.dateOfService.None? ==> e.status == NeedsInfo && e.winner.Some?)
  {
    assert Filter([], ApplicableTo(claim.header)) == [];
    assert Filter([], DefaultOn(claim.header.dateOfService)) == [];
    NoPackSelected([], claim, vals);
  }

  /** When the date of service lies outside every pack's window, not even a DEFAULT
    * pack is used, and only the preflight outcomes decide. */
  lemma NoEffectivePack(packs: seq<RulePack>, claim: Claim, vals: Validators)
    requires forall p :: p in packs ==> !IsEffectiveOn(p, claim.header.dateOfService)
    ensures var e := EvaluationOf(packs, claim, vals);
      && NoPacksNote in e.notes && e.outcomes == Preflight(claim)
      && (Preflight(claim) == [] ==> e.status == Pass && e.winner.None?)
  {
    FilterNone(packs, ApplicableTo(claim.header));
    FilterNone(packs, DefaultOn(claim.header.dateOfService));
    NoPackSelected(packs, claim, vals);
  }

  /** The result object holds the evaluation e: the outcome objects have e's outcomes
    * as their values, the winning rule is the object of e's winner, and status,
    * severity, actions and notes are e's. */
  ghost predicate Reports(result: RuleEvaluationResult, e: Evaluation)
    reads result, result.outcomes
  {
    && Views(result.outcomes) == e.outcomes
    && result.status == e.status && result.severity == e.severity
    && result.actions == e.actions && result.notes == e.notes
    && (e.winner.None? ==> result.winningRule == null)
    && (e.winner.Some? ==> e.outcomes != [] && result.winningRule == result.outcomes[WinnerIndex(e.outcomes)])
  }

  /** The rules engine: a validated catalog and the registered category validators. */
  class Engine {
    const packs: seq<RulePack>
    const validators: Validators

    constructor (packs: seq<RulePack>, validators: Validators)
      ensures this.packs == packs && this.validators == validators
    {
      this.packs := packs;
      this.validators := validators;
    }

    /** Runs the registered validator of the rule's category on `outcome`. */
    method Dispatch(rule: RuleDefinition, outcome: RuleOutcome, claim: Claim)
      modifies outcome
      ensures outcome.View() == Validate(rule, old(outcome.View()), claim, validators)
    {
      if rule.category in validators {
        var refine := validators[rule.category];
        outcome.Assign(refine(rule, outcome.View(), claim));
      }
    }

    /** The outcome object of one rule: a new object when the rule fires, none when it
      * does not. */
    method RunRule(rule: RuleDefinition, pack: RulePack, claim: Claim) returns (added: seq<RuleOutcome>)
      ensures Views(added) == FiredRule(rule, pack, claim, validators)
    {
      if TriggerMatches(rule, claim) {
        var o := new RuleOutcome(BuildOutcome(rule, claim, pack));
        Dispatch(rule, o, claim);
        added := [o];
      } else {
        added := [];
      }
    }

    /** One new outcome object per firing rule of `pack`, in priority order. */
    method EvaluatePack(pack: RulePack, claim: Claim) returns (res: seq<RuleOutcome>)
      ensures Views(res) == Fired(pack, claim, validators)
    {
      var rules := OrderedRules(pack);
      res := [];
      for k := 0 to |rules|
        invariant Views(res) == FlatMapUpTo(rules, k, RuleOutcomes(pack, claim, validators))
      {
        res := AppendRule(res, rules[k], pack, claim, Views(res));
      }
    }

    /** `res` followed by the outcome object of `rule` when it fires. */
    method AppendRule(res: seq<RuleOutcome>, rule: RuleDefinition, pack: RulePack, claim: Claim,
                      ghost prefix: seq<OutcomeView>) returns (extended: seq<RuleOutcome>)
      requires Views(res) == prefix
      ensures Views(extended) == prefix + FiredRule(rule, pack, claim, validators)
    {
      var added := RunRule(rule, pack, claim);
      assert Views(res) == prefix;
      ViewsAppend(res, added);
      extended := res + added;
    }

    /** One new outcome object per view, in order. */
    static method NewOutcomes(vs: seq<OutcomeView>) returns (os: seq<RuleOutcome>)
      ensures Views(os) == vs
    {
      os := [];
      for i := 0 to |vs|
        invariant Views(os) == vs[..i]
      {
        var o := new RuleOutcome(vs[i]);
        os := os + [o];
        assert vs[..i + 1] == vs[..i] + [vs[i]];
      }
      assert vs[..|vs|] == vs;
    }

    /** New outcome objects for the packs, pack after pack. */
    method EvaluatePacks(selected: seq<RulePack>, claim: Claim) returns (res: seq<RuleOutcome>)
      ensures Views(res) == FiredAll(selected, claim, validators)
    {
      res := [];
      for p := 0 to |selected|
        invariant Views(res) == FlatMapUpTo(selected, p, PackOutcomes(claim, validators))
      {
        res := AppendPack(res, selected[p], claim, Views(res));
      }
    }

    /** `res` followed by the outcome objects of `pack`. */
    method AppendPack(res: seq<RuleOutcome>, pack: RulePack, claim: Claim, ghost prefix: seq<OutcomeView>)
      returns (extended: seq<RuleOutcome>)
      requires Views(res) == prefix
      ensures Views(extended) == prefix + Fired(pack, claim, validators)
    {
      var added := EvaluatePack(pack, claim);
      assert Views(res) == prefix;
      ViewsAppend(res, added);
      extended := res + added;
    }

    /** The preflight outcomes followed by the outcomes of every selected pack, as new
      * objects. */
    method CollectOutcomes(claim: Claim) returns (outcomes: seq<RuleOutcome>, selected: seq<RulePack>)
      ensures selected == SelectRulePacks(packs, claim.header)
      ensures Views(outcomes) == AllOutcomes(packs, claim, validators)
    {
      var pre := NewOutcomes(Preflight(claim));
      selected := SelectRulePacks(packs, claim.header);
      var fired := EvaluatePacks(selected, claim);
      ViewsAppend(pre, fired);
      outcomes := pre + fired;
    }

    /** IRulesEngine.Evaluate. */
    method Evaluate(claim: Claim) returns (result: RuleEvaluationResult)
      ensures fresh(result)
      ensures Reports(result, EvaluationOf(packs, claim, validators))
    {
      var outcomes, selected := CollectOutcomes(claim);
      ghost var e := EvaluationOf(packs, claim, validators);
      result := new RuleEvaluationResult();
      Fill(result, outcomes, selected == [], e);
    }

    /** Stores the outcomes in the fresh result and sets its notes, actions, winning
      * rule and aggregate status, as the summary `e` of those outcomes says. */
    static method Fill(result: RuleEvaluationResult, outcomes: seq<RuleOutcome>, noPacks: bool, ghost e: Evaluation)
      requires result.status == Pass && result.severity == NonBlocking
      requires result.actions == [] && result.winningRule == null && result.notes == []
      requires e == Summary(noPacks, Views(outcomes))
      modifies result
      ensures result.outcomes == outcomes && Reports(result, e)
    {
      if outcomes == [] {
        Note(result, outcomes, if noPacks then NoPacksNote else NoRulesNote, e);
      } else {
        Conclude(result, outcomes, noPacks, e);
      }
    }

    /** An evaluation that ends with a note and the initial Pass/NonBlocking status. */
    static method Note(result: RuleEvaluationResult, outcomes: seq<RuleOutcome>, note: string, ghost e: Evaluation)
      requires result.status == Pass && result.severity == NonBlocking
      requires result.actions == [] && result.winningRule == null && result.notes == []
      requires e == Evaluation(Pass, NonBlocking, [], None, Views(outcomes), [note])
      modifies result
      ensures result.outcomes == outcomes && Reports(result, e)
    {
      result.outcomes, result.notes := outcomes, [note];
    }

    /** An evaluation with outcomes: notes, actions, winning rule and aggregate status. */
    static method Conclude(result: RuleEvaluationResult, outcomes: seq<RuleOutcome>, noPacks: bool, ghost e: Evaluation)
      requires result.notes == [] && outcomes != []
      requires e == Summary(noPacks, Views(outcomes))
      modifies result
      ensures result.outcomes == outcomes && Reports(result, e)
    {
      var views := Views(outcomes);
      var w := WinnerIndex(views);
      var notes := if noPacks then [NoPacksNote] else [];
      assert e == Evaluation(Aggregate(views).0, Aggregate(views).1, Actions(views), Some(views[w]), views, notes);
      result.outcomes, result.actions, result.winningRule, result.notes := outcomes, Actions(views), outcomes[w], notes;
      ApplyAggregateStatus(result, views);
    }

    /** Sets the result's status and severity from its outcomes, whose values are vs. */
    static method ApplyAggregateStatus(result: RuleEvaluationResult, ghost vs: seq<OutcomeView>)
      requires Views(result.outcomes) == vs
      modifies result
      ensures (result.status, result.severity) == Aggregate(vs)
      ensures Views(result.outcomes) == vs
      ensures result.outcomes == old(result.outcomes) && result.actions == old(result.actions)
      ensures result.notes == old(result.notes) && result.winningRule == old(result.winningRule)
    {
      var outs := Views(result.outcomes);
      if AnyWith(outs, IsBlockingFail) {
        result.status, result.severity := Fail, Blocking;
      } else if AnyWith(outs, HasStatus(NeedsInfo)) {
        result.status, result.severity := NeedsInfo, NonBlocking;
      } else if AnyWith(outs, HasStatus(Warn)) {
        result.status, result.severity := Warn, NonBlocking;
      } else {
        result.status, result.severity := Pass, NonBlocking;
      }
    }
  }
}
