/** Deterministic CPT coding of a radiology encounter: a modality and body region pick a
  * code table, the contrast state or the view count picks the row, and the guidance
  * add-on and the interventional procedure come from keywords in the report. */
module RadiologyCptCoding {
  import opened Text
  import opened Sequences
  import opened Encounter

  /** A CPT code with its description. */
  datatype CodeEntry = CodeEntry(code: string, description: string)

  /** Which of the service's keyword patterns occur in the report text (the section
    * texts joined with "\n"), each as a whole word and ignoring case: "CT GUIDANCE";
    * "US GUIDANCE" or "ULTRASOUND GUIDANCE"; "FLUORO" or "FLUOROSCOPIC"; "DRAINAGE";
    * "BIOPSY". */
  datatype ReportMatches = ReportMatches(
    ctGuidance: bool,
    usGuidance: bool,
    fluoroGuidance: bool,
    drainage: bool,
    biopsy: bool)

  predicate IsModality(e: ExtractedEncounter, modality: string) {
    EqIgnoreCase(e.modality, modality)
  }

  /** HasRegion: one of the body regions, or else the primary body region, equals the
    * region ignoring case. */
  predicate HasRegion(e: ExtractedEncounter, region: string) {
    ContainsIgnoreCase(e.bodyRegions, region) || EqIgnoreCase(e.bodyRegion, region)
  }

  // ---------------------------------------------------------------------
  // Code tables

  /** The three contrast states every contrast table knows. */
  predicate IsKnownContrast(state: string) {
    EqIgnoreCase(state, "WITHOUT") || EqIgnoreCase(state, "WITH") || EqIgnoreCase(state, "WITH_AND_WITHOUT")
  }

  /** The rows of a contrast table. */
  datatype ContrastCodes = ContrastCodes(without: CodeEntry, withContrast: CodeEntry, both: CodeEntry)

  const CtChestCodes := ContrastCodes(
    CodeEntry("71250", "CT chest without contrast"),
    CodeEntry("71260", "CT chest with contrast"),
    CodeEntry("71270", "CT chest with and without contrast"))

  const CtAbdPelvisCodes := ContrastCodes(
    CodeEntry("74176", "CT abdomen and pelvis without contrast"),
    CodeEntry("74177", "CT abdomen and pelvis with contrast"),
    CodeEntry("74178", "CT abdomen and pelvis with and without contrast"))

  const MriShoulderCodes := ContrastCodes(
    CodeEntry("73221", "MRI shoulder without contrast"),
    CodeEntry("73222", "MRI shoulder with contrast"),
    CodeEntry("73223", "MRI shoulder with and without contrast"))

  /** A switch on the upper-cased contrast state. */
  function ContrastTable(state: string, codes: ContrastCodes): Option<CodeEntry> {
    var u := Upper(state);
    if u == "WITHOUT" then Some(codes.without)
    else if u == "WITH" then Some(codes.withContrast)
    else if u == "WITH_AND_WITHOUT" then Some(codes.both)
    else None
  }

  /** Each known contrast state, in any case, selects its row; any other state none. */
  lemma ContrastRows(state: string, codes: ContrastCodes)
    ensures var r := ContrastTable(state, codes);
      (EqIgnoreCase(state, "WITHOUT") ==> r == Some(codes.without))
      && (EqIgnoreCase(state, "WITH") ==> r == Some(codes.withContrast))
      && (EqIgnoreCase(state, "WITH_AND_WITHOUT") ==> r == Some(codes.both))
      && (r.None? <==> !IsKnownContrast(state))
  {
    UpperMatches(state, "WITHOUT");
    UpperMatches(state, "WITH");
    UpperMatches(state, "WITH_AND_WITHOUT");
  }

  function MapCtChest(e: ExtractedEncounter): Option<CodeEntry> {
    ContrastTable(e.contrastState, CtChestCodes)
  }

  function MapCtAbdPelvis(e: ExtractedEncounter): Option<CodeEntry> {
    ContrastTable(e.contrastState, CtAbdPelvisCodes)
  }

  function MapMriShoulder(e: ExtractedEncounter): Option<CodeEntry> {
    ContrastTable(e.contrastState, MriShoulderCodes)
  }

  /** The contrast tables give a code for exactly the three known states, ignoring
    * case, and the code of each state. */
  lemma ContrastTables(e: ExtractedEncounter)
    ensures MapCtChest(e).Some? <==> IsKnownContrast(e.contrastState)
    ensures MapCtAbdPelvis(e).Some? <==> IsKnownContrast(e.contrastState)
    ensures MapMriShoulder(e).Some? <==> IsKnownContrast(e.contrastState)
    ensures EqIgnoreCase(e.contrastState, "WITHOUT") ==>
      MapCtChest(e).value.code == "71250" && MapCtAbdPelvis(e).value.code == "74176" && MapMriShoulder(e).value.code == "73221"
    ensures EqIgnoreCase(e.contrastState, "WITH") ==>
      MapCtChest(e).value.code == "71260" && MapCtAbdPelvis(e).value.code == "74177" && MapMriShoulder(e).value.code == "73222"
    ensures EqIgnoreCase(e.contrastState, "WITH_AND_WITHOUT") ==>
      MapCtChest(e).value.code == "71270" && MapCtAbdPelvis(e).value.code == "74178" && MapMriShoulder(e).value.code == "73223"
  {
    ContrastRows(e.contrastState, CtChestCodes);
    ContrastRows(e.contrastState, CtAbdPelvisCodes);
    ContrastRows(e.contrastState, MriShoulderCodes);
  }

  const UsAbdomenComplete := CodeEntry("76700", "Ultrasound abdomen complete")
  const UsAbdomenLimited := CodeEntry("76705", "Ultrasound abdomen limited")

  function MapUsAbdomen(e: ExtractedEncounter): Option<CodeEntry> {
    var u := Upper(e.viewsOrCompleteness);
    if u == "US_COMPLETE" then Some(UsAbdomenComplete)
    else if u == "US_LIMITED" then Some(UsAbdomenLimited)
    else None
  }

  /** US abdomen: US_COMPLETE or US_LIMITED, ignoring case. */
  lemma UsAbdomenRows(e: ExtractedEncounter)
    ensures EqIgnoreCase(e.viewsOrCompleteness, "US_COMPLETE") <==> MapUsAbdomen(e) == Some(UsAbdomenComplete)
    ensures EqIgnoreCase(e.viewsOrCompleteness, "US_LIMITED") <==> MapUsAbdomen(e) == Some(UsAbdomenLimited)
    ensures MapUsAbdomen(e).None? <==>
      !EqIgnoreCase(e.viewsOrCompleteness, "US_COMPLETE") && !EqIgnoreCase(e.viewsOrCompleteness, "US_LIMITED")
  {
    UpperMatches(e.viewsOrCompleteness, "US_COMPLETE");
    UpperMatches(e.viewsOrCompleteness, "US_LIMITED");
  }

  const XrKneeTwoViews := CodeEntry("73560", "X-ray knee 1-2 views")
  const XrKneeThreeViews := CodeEntry("73562", "X-ray knee 3 views")
  const XrKneeFourViews := CodeEntry("73564", "X-ray knee 4+ views")

  function MapXrKnee(e: ExtractedEncounter): Option<CodeEntry> {
    var u := Upper(e.viewsOrCompleteness);
    if u == "VIEWS_2" then Some(XrKneeTwoViews)
    else if u == "VIEWS_3" then Some(XrKneeThreeViews)
    else if u == "VIEWS_4_PLUS" then Some(XrKneeFourViews)
    else None
  }

  /** XR knee: VIEWS_2, VIEWS_3 or VIEWS_4_PLUS, ignoring case. */
  lemma XrKneeRows(e: ExtractedEncounter)
    ensures EqIgnoreCase(e.viewsOrCompleteness, "VIEWS_2") <==> MapXrKnee(e) == Some(XrKneeTwoViews)
    ensures EqIgnoreCase(e.viewsOrCompleteness, "VIEWS_3") <==> MapXrKnee(e) == Some(XrKneeThreeViews)
    ensures EqIgnoreCase(e.viewsOrCompleteness, "VIEWS_4_PLUS") <==> MapXrKnee(e) == Some(XrKneeFourViews)
    ensures MapXrKnee(e).None? <==>
      !EqIgnoreCase(e.viewsOrCompleteness, "VIEWS_2") && !EqIgnoreCase(e.viewsOrCompleteness, "VIEWS_3")
      && !EqIgnoreCase(e.viewsOrCompleteness, "VIEWS_4_PLUS")
  {
    UpperMatches(e.viewsOrCompleteness, "VIEWS_2");
    UpperMatches(e.viewsOrCompleteness, "VIEWS_3");
    UpperMatches(e.viewsOrCompleteness, "VIEWS_4_PLUS");
  }

  const IrDrainage := CodeEntry("49406", "Percutaneous drainage with imaging guidance")
  const IrBiopsy := CodeEntry("49180", "Percutaneous biopsy, deep tissue")

  /** TryMapIrProcedure: a drainage wins over a biopsy. */
  function MapIrProcedure(m: ReportMatches): (r: Option<CodeEntry>)
    ensures r.Some? <==> m.drainage || m.biopsy
    ensures m.drainage ==> r.value.code == "49406"
    ensures !m.drainage && m.biopsy ==> r.value.code == "49180"
  {
    if m.drainage then Some(IrDrainage)
    else if m.biopsy then Some(IrBiopsy)
    else None
  }

  const CtGuidance := CodeEntry("77012", "CT guidance for needle placement")
  const UsGuidance := CodeEntry("76942", "Ultrasound guidance for needle placement")
  const FluoroGuidance := CodeEntry("77002", "Fluoroscopic guidance for needle placement")

  /** MapGuidanceAddOn: CT guidance, else ultrasound guidance or an ultrasound study,
    * else fluoroscopy. */
  function MapGuidanceAddOn(e: ExtractedEncounter, m: ReportMatches): Option<CodeEntry> {
    if m.ctGuidance then Some(CtGuidance)
    else if m.usGuidance || IsModality(e, "US") then Some(UsGuidance)
    else if m.fluoroGuidance then Some(FluoroGuidance)
    else None
  }

  /** The guidance code: there is one exactly when some guidance keyword occurs or the
    * study is an ultrasound, and CT guidance outranks ultrasound, which outranks
    * fluoroscopy. */
  lemma GuidanceChoice(e: ExtractedEncounter, m: ReportMatches)
    ensures MapGuidanceAddOn(e, m).Some? <==> m.ctGuidance || m.usGuidance || IsModality(e, "US") || m.fluoroGuidance
    ensures m.ctGuidance ==> MapGuidanceAddOn(e, m).value.code == "77012"
    ensures !m.ctGuidance && (m.usGuidance || IsModality(e, "US")) ==> MapGuidanceAddOn(e, m).value.code == "76942"
    ensures MapGuidanceAddOn(e, m).Some? && MapGuidanceAddOn(e, m).value.code == "77002" <==>
      m.fluoroGuidance && !m.ctGuidance && !m.usGuidance && !IsModality(e, "US")
  {
  }

  // ---------------------------------------------------------------------
  // Evidence, modifiers and selections

  /** BuildEvidence: the modality, body region, contrast, views, laterality, guidance and
    * intervention spans, in that order, without case-insensitive repeats. */
  function BuildEvidence(e: ExtractedEncounter): seq<string> {
    FirstByKey(CodingSpans(e), Lower)
  }

  /** The evidence has no two spans equal ignoring case, takes every span from the
    * seven lists and covers each of their spans; each kept span is the first of its
    * case-insensitive class, and the kept spans are in the order of those first ones. */
  lemma EvidenceDeduplicated(e: ExtractedEncounter)
    ensures var r := BuildEvidence(e);
      forall i, j :: 0 <= i < j < |r| ==> !EqIgnoreCase(r[i], r[j])
    ensures forall x :: x in BuildEvidence(e) ==> x in CodingSpans(e)
    ensures var r := BuildEvidence(e);
      forall x :: x in CodingSpans(e) ==> exists i :: 0 <= i < |r| && EqIgnoreCase(r[i], x)
    ensures var r := BuildEvidence(e); var spans := CodingSpans(e);
      forall i :: 0 <= i < |r| ==>
        Lower(r[i]) in KeySet(spans, Lower) && r[i] == spans[FirstIndex(spans, Lower, Lower(r[i]))]
    ensures var r := BuildEvidence(e); var spans := CodingSpans(e);
      forall i, j :: 0 <= i < j < |r| ==>
        Lower(r[i]) in KeySet(spans, Lower) && Lower(r[j]) in KeySet(spans, Lower)
        && FirstIndex(spans, Lower, Lower(r[i])) < FirstIndex(spans, Lower, Lower(r[j]))
  {
    EvidenceDistinct(CodingSpans(e));
    FirstByKeyOrder(CodingSpans(e), Lower);
    EvidenceCovers(CodingSpans(e));
  }

  /** No two kept spans are equal ignoring case, and each kept span is one of the spans. */
  lemma EvidenceDistinct(spans: seq<string>)
    ensures var r := FirstByKey(spans, Lower);
      forall i, j :: 0 <= i < j < |r| ==> !EqIgnoreCase(r[i], r[j])
    ensures forall x :: x in FirstByKey(spans, Lower) ==> x in spans
  {
  }

  /** Every span is represented by a kept span equal to it ignoring case. */
  lemma EvidenceCovers(spans: seq<string>)
    ensures var r := FirstByKey(spans, Lower);
      forall x :: x in spans ==> exists i :: 0 <= i < |r| && EqIgnoreCase(r[i], x)
  {
    var r := FirstByKey(spans, Lower);
    forall x | x in spans ensures exists i :: 0 <= i < |r| && EqIgnoreCase(r[i], x) {
      var j :| 0 <= j < |spans| && spans[j] == x;
      assert Lower(x) in KeySet(spans, Lower);
      assert Lower(x) in KeySet(r, Lower);
      var i :| 0 <= i < |r| && Lower(r[i]) == Lower(x);
      assert EqIgnoreCase(r[i], x);
    }
    assert r == FirstByKey(spans, Lower);
  }

  /** The spans a CPT selection can cite: every list but the indication's. */
  function CodingSpans(e: ExtractedEncounter): seq<string> {
    e.modalityEvidenceSpans + e.bodyRegionEvidenceSpans + e.contrastEvidenceSpans
    + e.viewsOrCompletenessEvidenceSpans + e.lateralityEvidenceSpans + e.guidanceEvidenceSpans
    + e.interventionEvidenceSpans
  }

  /** The billing-context modifier. */
  function BillingModifier(context: string): seq<string> {
    if Upper(context) == "PROFESSIONAL" then ["26"]
    else if Upper(context) == "TECHNICAL" then ["TC"]
    else []
  }

  /** The laterality modifier. */
  function LateralityModifier(laterality: string): seq<string> {
    if Upper(laterality) == "RT" then ["RT"]
    else if Upper(laterality) == "LT" then ["LT"]
    else if Upper(laterality) == "BILATERAL" then ["50"]
    else []
  }

  function Modifiers(e: ExtractedEncounter): seq<string> {
    BillingModifier(e.billingContext) + LateralityModifier(e.laterality)
  }

  /** BuildModifiers: a professional or technical component modifier, then a laterality
    * modifier. */
  method BuildModifiers(e: ExtractedEncounter) returns (modifiers: seq<string>)
    ensures modifiers == Modifiers(e)
  {
    modifiers := [];
    var context := Upper(e.billingContext);
    if context == "PROFESSIONAL" {
      modifiers := modifiers + ["26"];
    } else if context == "TECHNICAL" {
      modifiers := modifiers + ["TC"];
    }
    var side := LateralityExtension(e.laterality);
    modifiers := modifiers + side;
  }

  /** The laterality switch of BuildModifiers. */
  method LateralityExtension(laterality: string) returns (side: seq<string>)
    ensures side == LateralityModifier(laterality)
  {
    side := [];
    var l := Upper(laterality);
    if l == "RT" {
      side := side + ["RT"];
    } else if l == "LT" {
      side := side + ["LT"];
    } else if l == "BILATERAL" {
      side := side + ["50"];
    }
  }

  /** The component modifier is "26" for a professional and "TC" for a technical
    * billing context, ignoring case, and nothing otherwise. */
  lemma BillingModifierChosen(context: string)
    ensures BillingModifier(context) == ["26"] <==> EqIgnoreCase(context, "PROFESSIONAL")
    ensures BillingModifier(context) == ["TC"] <==> EqIgnoreCase(context, "TECHNICAL")
    ensures |BillingModifier(context)| <= 1
  {
    UpperMatches(context, "PROFESSIONAL");
    UpperMatches(context, "TECHNICAL");
  }

  /** The laterality modifier is "RT", "LT" or "50" for a right, left or bilateral
    * study, ignoring case, and nothing otherwise. */
  lemma LateralityModifierChosen(laterality: string)
    ensures LateralityModifier(laterality) == ["RT"] <==> EqIgnoreCase(laterality, "RT")
    ensures LateralityModifier(laterality) == ["LT"] <==> EqIgnoreCase(laterality, "LT")
    ensures LateralityModifier(laterality) == ["50"] <==> EqIgnoreCase(laterality, "BILATERAL")
    ensures |LateralityModifier(laterality)| <= 1
  {
    UpperMatches(laterality, "RT");
    UpperMatches(laterality, "LT");
    UpperMatches(laterality, "BILATERAL");
  }

  /** Which modifiers an encounter gets: each one exactly for its billing context or
    * laterality, ignoring case, with at most one of each kind. */
  lemma ModifiersChosen(e: ExtractedEncounter)
    ensures "26" in Modifiers(e) <==> EqIgnoreCase(e.billingContext, "PROFESSIONAL")
    ensures "TC" in Modifiers(e) <==> EqIgnoreCase(e.billingContext, "TECHNICAL")
    ensures "RT" in Modifiers(e) <==> EqIgnoreCase(e.laterality, "RT")
    ensures "LT" in Modifiers(e) <==> EqIgnoreCase(e.laterality, "LT")
    ensures "50" in Modifiers(e) <==> EqIgnoreCase(e.laterality, "BILATERAL")
    ensures |Modifiers(e)| <= 2
  {
    BillingModifierChosen(e.billingContext);
    LateralityModifierChosen(e.laterality);
  }

  /** BuildSelection: every selection has rule version "1.0". */
  function BuildSelection(entry: CodeEntry, ruleId: string, evidence: seq<string>, modifiers: seq<string>): CptCodeSelection {
    CptCodeSelection(entry.code, entry.description, modifiers, ruleId, "1.0", evidence)
  }

  // ---------------------------------------------------------------------
  // Generate

  /** One of Generate's primary-code branches: whether it applies to the encounter, the
    * code its table gives, the rule id of the selection and the exclusion reason
    * recorded when the table gives no code (the interventional branch records none). */
  // The rule ids of the selections.
  const CtChestRule := "CPT_CT_CHEST"
  const CtAbdPelvisRule := "CPT_CT_ABD_PELVIS"
  const MriShoulderRule := "CPT_MRI_SHOULDER"
  const UsAbdomenRule := "CPT_US_ABDOMEN"
  const XrKneeRule := "CPT_XR_KNEE"
  const IrRule := "CPT_IR_PROC"
  const GuidanceRule := "CPT_GUIDANCE_ADDON"

  // The exclusion reasons.
  const CtChestExclusion := "CT chest missing or unknown contrast state."
  const CtAbdPelvisExclusion := "CT abdomen/pelvis missing or unknown contrast state."
  const MriShoulderExclusion := "MRI shoulder missing or unknown contrast state."
  const UsAbdomenExclusion := "US abdomen missing completeness (complete vs limited)."
  const XrKneeExclusion := "XR knee missing view count."

  datatype Branch = Branch(applies: bool, code: Option<CodeEntry>, ruleId: string, exclusion: Option<string>)

  function CtChestBranch(e: ExtractedEncounter): Branch {
    Branch(IsModality(e, "CT") && HasRegion(e, "CHEST"), MapCtChest(e),
           CtChestRule, Some(CtChestExclusion))
  }

  function CtAbdPelvisBranch(e: ExtractedEncounter): Branch {
    Branch(IsModality(e, "CT") && (HasRegion(e, "ABD_PELVIS") || (HasRegion(e, "ABDOMEN") && HasRegion(e, "PELVIS"))),
           MapCtAbdPelvis(e), CtAbdPelvisRule, Some(CtAbdPelvisExclusion))
  }

  function MriShoulderBranch(e: ExtractedEncounter): Branch {
    Branch(IsModality(e, "MRI") && HasRegion(e, "SHOULDER"), MapMriShoulder(e),
           MriShoulderRule, Some(MriShoulderExclusion))
  }

  function UsAbdomenBranch(e: ExtractedEncounter): Branch {
    Branch(IsModality(e, "US") && HasRegion(e, "ABDOMEN"), MapUsAbdomen(e),
           UsAbdomenRule, Some(UsAbdomenExclusion))
  }

  function XrKneeBranch(e: ExtractedEncounter): Branch {
    Branch(IsModality(e, "XR") && HasRegion(e, "KNEE"), MapXrKnee(e),
           XrKneeRule, Some(XrKneeExclusion))
  }

  function IrBranch(e: ExtractedEncounter, m: ReportMatches): Branch {
    Branch(IsModality(e, "IR") || e.interventionFlag, MapIrProcedure(m), IrRule, None)
  }

  /** The primary-code branches in the order Generate tries them. */
  function Branches(e: ExtractedEncounter, m: ReportMatches): (bs: seq<Branch>)
    ensures |bs| == 6
  {
    [CtChestBranch(e), CtAbdPelvisBranch(e), MriShoulderBranch(e), UsAbdomenBranch(e), XrKneeBranch(e), IrBranch(e, m)]
  }

  /** The rule ids of the branches, in order. */
  const RuleIds: seq<string> := [CtChestRule, CtAbdPelvisRule, MriShoulderRule, UsAbdomenRule, XrKneeRule, IrRule]

  /** Every branch carries its own rule id. */
  lemma BranchRuleIds(e: ExtractedEncounter, m: ReportMatches)
    ensures |Branches(e, m)| == |RuleIds|
    ensures forall j :: 0 <= j < |RuleIds| ==> Branches(e, m)[j].ruleId == RuleIds[j]
  {
  }

  /** No two branches share a rule id. */
  lemma RuleIdsDistinct()
    ensures forall i, j :: 0 <= i < j < |RuleIds| ==> RuleIds[i] != RuleIds[j]
  {
    assert forall i, j :: 0 <= i < j < |RuleIds| && |RuleIds[i]| == |RuleIds[j]| ==> RuleIds[i][4] != RuleIds[j][4];
  }

  /** The selection a branch contributes. */
  function SelectionOf(evidence: seq<string>, modifiers: seq<string>): Branch -> seq<CptCodeSelection> {
    (b: Branch) => if b.applies && b.code.Some? then [BuildSelection(b.code.value, b.ruleId, evidence, modifiers)] else []
  }

  /** The exclusion reason a branch contributes. */
  function ExclusionOf(b: Branch): seq<string> {
    if b.applies && b.code.None? && b.exclusion.Some? then [b.exclusion.value] else []
  }

  /** The guidance add-on, which carries no modifiers. */
  function AddOns(e: ExtractedEncounter, m: ReportMatches, evidence: seq<string>): seq<CptCodeSelection> {
    if e.guidanceFlag && MapGuidanceAddOn(e, m).Some? then
      [BuildSelection(MapGuidanceAddOn(e, m).value, GuidanceRule, evidence, [])]
    else []
  }

  /** The coding result of an encounter. */
  function Coding(e: ExtractedEncounter, m: ReportMatches): CptCodingResult {
    var evidence := BuildEvidence(e);
    var primary := FlatMap(Branches(e, m), SelectionOf(evidence, Modifiers(e)));
    CptCodingResult(primary, AddOns(e, m, evidence), FlatMap(Branches(e, m), ExclusionOf), primary == [])
  }

  /** Generate: the CT chest, CT abdomen/pelvis, MRI shoulder, US abdomen, XR knee and
    * interventional branches in order, then the guidance add-on, then the review flag. */
  method Generate(e: ExtractedEncounter, m: ReportMatches) returns (result: CptCodingResult)
    ensures result == Coding(e, m)
  {
    result := CptCodingResult([], [], [], false);
    var evidence := BuildEvidence(e);
    var modifiers := BuildModifiers(e);
    // the CT chest, CT abdomen/pelvis, MRI shoulder, US abdomen, XR knee and
    // interventional branches
    var branches := Branches(e, m);
    result := AddBranch(result, branches[0], evidence, modifiers, branches, 0);
    result := AddBranch(result, branches[1], evidence, modifiers, branches, 1);
    result := AddBranch(result, branches[2], evidence, modifiers, branches, 2);
    result := AddBranch(result, branches[3], evidence, modifiers, branches, 3);
    result := AddBranch(result, branches[4], evidence, modifiers, branches, 4);
    result := AddBranch(result, branches[5], evidence, modifiers, branches, 5);
    if e.guidanceFlag {
      var guidance := MapGuidanceAddOn(e, m);
      if guidance.Some? {
        result := result.(addOnCpts := result.addOnCpts + [BuildSelection(guidance.value, GuidanceRule, evidence, [])]);
      }
    }
    result := result.(requiresHumanReview := |result.primaryCpts| == 0);
  }

  /** One branch of Generate, the k-th of bs: its selection when the table gives a code,
    * its exclusion reason when it gives none. */
  method AddBranch(result: CptCodingResult, b: Branch, evidence: seq<string>, modifiers: seq<string>,
                   ghost bs: seq<Branch>, ghost k: nat)
    returns (result': CptCodingResult)
    requires k < |bs| && bs[k] == b
    requires result.primaryCpts == FlatMapUpTo(bs, k, SelectionOf(evidence, modifiers))
    requires result.exclusionReasons == FlatMapUpTo(bs, k, ExclusionOf)
    ensures result'.primaryCpts == FlatMapUpTo(bs, k + 1, SelectionOf(evidence, modifiers))
    ensures result'.exclusionReasons == FlatMapUpTo(bs, k + 1, ExclusionOf)
    ensures result'.addOnCpts == result.addOnCpts && result'.requiresHumanReview == result.requiresHumanReview
  {
    result' := result;
    if b.applies {
      if b.code.Some? {
        result' := result'.(primaryCpts := result'.primaryCpts + [BuildSelection(b.code.value, b.ruleId, evidence, modifiers)]);
      } else if b.exclusion.Some? {
        result' := result'.(exclusionReasons := result'.exclusionReasons + [b.exclusion.value]);
      }
    }
  }

  // ---------------------------------------------------------------------
  // Properties of the branch lists

  /** The selections of a branch list are exactly those of its applicable branches whose
    * table gives a code. */
  lemma SelectedMembers(bs: seq<Branch>, evidence: seq<string>, modifiers: seq<string>, s: CptCodeSelection)
    ensures s in FlatMap(bs, SelectionOf(evidence, modifiers)) <==>
      exists i :: 0 <= i < |bs| && bs[i].applies && bs[i].code.Some?
        && s == BuildSelection(bs[i].code.value, bs[i].ruleId, evidence, modifiers)
  {
    FlatMapUpToMembers(bs, |bs|, SelectionOf(evidence, modifiers), s);
  }

  /** The exclusion reasons are exactly those of the applicable branches whose table
    * gives no code. */
  lemma ExcludedMembers(bs: seq<Branch>, x: string)
    ensures x in FlatMap(bs, ExclusionOf) <==>
      exists i :: 0 <= i < |bs| && bs[i].applies && bs[i].code.None? && bs[i].exclusion == Some(x)
  {
    FlatMapUpToMembers(bs, |bs|, ExclusionOf, x);
  }

  /** An applicable branch without a code leaves its reason and no selection under its
    * rule id, when no other branch shares the rule id. */
  lemma ExcludedBranch(bs: seq<Branch>, i: nat, evidence: seq<string>, modifiers: seq<string>)
    requires i < |bs| && bs[i].applies && bs[i].code.None? && bs[i].exclusion.Some?
    requires forall j :: 0 <= j < |bs| && j != i ==> bs[j].ruleId != bs[i].ruleId
    ensures bs[i].exclusion.value in FlatMap(bs, ExclusionOf)
    ensures forall s :: s in FlatMap(bs, SelectionOf(evidence, modifiers)) ==> s.ruleId != bs[i].ruleId
  {
    ExcludedMembers(bs, bs[i].exclusion.value);
    forall s | s in FlatMap(bs, SelectionOf(evidence, modifiers))
      ensures s.ruleId != bs[i].ruleId
    {
      SelectedMembers(bs, evidence, modifiers, s);
    }
  }

  /** Each applicable table branch adds exactly one entry, its code or its exclusion
    * reason; the interventional branch adds its code or nothing. */
  lemma {:induction false} BranchAccounting(bs: seq<Branch>, k: nat, evidence: seq<string>, modifiers: seq<string>)
    requires k <= |bs|
    ensures |FlatMapUpTo(bs, k, SelectionOf(evidence, modifiers))| + |FlatMapUpTo(bs, k, ExclusionOf)| ==
      |Filter(bs[..k], Accounted)|
  {
    if k > 0 {
      BranchAccounting(bs, k - 1, evidence, modifiers);
      assert bs[..k] == bs[..k - 1] + [bs[k - 1]];
      FilterAppend(bs[..k - 1], [bs[k - 1]], Accounted);
    }
  }

  /** A branch that leaves a code or a reason. */
  predicate Accounted(b: Branch) {
    b.applies && (b.code.Some? || b.exclusion.Some?)
  }

  // ---------------------------------------------------------------------
  // Properties of the coding result

  /** When no other branch shares its rule id, the selections under a branch's rule id
    * are that branch's own, and there is one exactly when it applies with a code. */
  lemma SelectionsUnder(bs: seq<Branch>, i: nat, evidence: seq<string>, modifiers: seq<string>)
    requires i < |bs|
    requires forall j :: 0 <= j < |bs| && j != i ==> bs[j].ruleId != bs[i].ruleId
    ensures forall s :: s in FlatMap(bs, SelectionOf(evidence, modifiers)) && s.ruleId == bs[i].ruleId ==>
      bs[i].applies && bs[i].code.Some? && s == BuildSelection(bs[i].code.value, bs[i].ruleId, evidence, modifiers)
    ensures bs[i].applies && bs[i].code.Some? ==>
      BuildSelection(bs[i].code.value, bs[i].ruleId, evidence, modifiers) in FlatMap(bs, SelectionOf(evidence, modifiers))
  {
    forall s | s in FlatMap(bs, SelectionOf(evidence, modifiers)) && s.ruleId == bs[i].ruleId
      ensures bs[i].applies && bs[i].code.Some? && s == BuildSelection(bs[i].code.value, bs[i].ruleId, evidence, modifiers)
    {
      SelectedMembers(bs, evidence, modifiers, s);
    }
    if bs[i].applies && bs[i].code.Some? {
      SelectedMembers(bs, evidence, modifiers, BuildSelection(bs[i].code.value, bs[i].ruleId, evidence, modifiers));
    }
  }

  // ---------------------------------------------------------------------
  // Properties of the coding result

  /** The primary selections are exactly those of the applicable branches whose table
    * gives a code; they carry version "1.0", the deduplicated evidence and the
    * encounter's modifiers. */
  lemma PrimaryMembers(e: ExtractedEncounter, m: ReportMatches, s: CptCodeSelection)
    ensures var bs := Branches(e, m);
      s in Coding(e, m).primaryCpts <==>
      exists i :: 0 <= i < |bs| && bs[i].applies && bs[i].code.Some?
        && s == BuildSelection(bs[i].code.value, bs[i].ruleId, BuildEvidence(e), Modifiers(e))
    ensures s in Coding(e, m).primaryCpts ==>
      s.ruleVersion == "1.0" && s.evidenceSpans == BuildEvidence(e) && s.modifiers == Modifiers(e)
  {
    SelectedMembers(Branches(e, m), BuildEvidence(e), Modifiers(e), s);
  }

  /** The exclusion reasons are exactly those of the applicable branches whose table
    * gives no code. */
  lemma ExclusionMembers(e: ExtractedEncounter, m: ReportMatches, x: string)
    ensures var bs := Branches(e, m);
      x in Coding(e, m).exclusionReasons <==>
      exists i :: 0 <= i < |bs| && bs[i].applies && bs[i].code.None? && bs[i].exclusion == Some(x)
  {
    ExcludedMembers(Branches(e, m), x);
  }

  /** Review is required exactly when no branch gave a code. */
  lemma HumanReview(e: ExtractedEncounter, m: ReportMatches)
    ensures var bs := Branches(e, m);
      Coding(e, m).requiresHumanReview <==> forall i :: 0 <= i < |bs| ==> !(bs[i].applies && bs[i].code.Some?)
  {
    var bs := Branches(e, m);
    FlatMapUpToEmpty(bs, |bs|, SelectionOf(BuildEvidence(e), Modifiers(e)));
  }

  /** The number of primary codes plus exclusion reasons is the number of applicable
    * table branches, plus one when the interventional branch finds a procedure. */
  lemma CodingAccounting(e: ExtractedEncounter, m: ReportMatches)
    ensures |Coding(e, m).primaryCpts| + |Coding(e, m).exclusionReasons| == |Filter(Branches(e, m), Accounted)|
  {
    var bs := Branches(e, m);
    BranchAccounting(bs, |bs|, BuildEvidence(e), Modifiers(e));
    assert bs[..|bs|] == bs;
  }

  /** The add-on is the guidance code, when the guidance flag is set and a guidance
    * keyword or an ultrasound study gives one, with no modifiers. */
  lemma AddOnCoding(e: ExtractedEncounter, m: ReportMatches)
    ensures |Coding(e, m).addOnCpts| <= 1
    ensures Coding(e, m).addOnCpts != [] <==> e.guidanceFlag && MapGuidanceAddOn(e, m).Some?
    ensures forall s :: s in Coding(e, m).addOnCpts ==>
      s.ruleVersion == "1.0" && s.modifiers == [] && s.ruleId == GuidanceRule
  {
    assert Coding(e, m).addOnCpts == AddOns(e, m, BuildEvidence(e));
  }

  /** A CT chest study with a known contrast state gets its contrast code. */
  lemma CtChestCoded(e: ExtractedEncounter, m: ReportMatches)
    requires IsModality(e, "CT") && HasRegion(e, "CHEST") && IsKnownContrast(e.contrastState)
    ensures MapCtChest(e).Some?
    ensures BuildSelection(MapCtChest(e).value, CtChestRule, BuildEvidence(e), Modifiers(e)) in Coding(e, m).primaryCpts
  {
    var bs := Branches(e, m);
    var evidence, modifiers := BuildEvidence(e), Modifiers(e);
    assert Coding(e, m).primaryCpts == FlatMap(bs, SelectionOf(evidence, modifiers));
    assert bs[0] == CtChestBranch(e);
    ContrastTables(e);
    SelectedMembers(bs, evidence, modifiers, BuildSelection(MapCtChest(e).value, CtChestRule, evidence, modifiers));
  }

  /** A CT chest study with an unknown contrast state gets no chest code and the chest
    * exclusion reason. */
  lemma CtChestExcluded(e: ExtractedEncounter, m: ReportMatches)
    requires IsModality(e, "CT") && HasRegion(e, "CHEST") && !IsKnownContrast(e.contrastState)
    ensures "CT chest missing or unknown contrast state." in Coding(e, m).exclusionReasons
    ensures forall s :: s in Coding(e, m).primaryCpts ==> s.ruleId != CtChestRule
  {
    var bs := Branches(e, m);
    var evidence, modifiers := BuildEvidence(e), Modifiers(e);
    assert Coding(e, m).primaryCpts == FlatMap(bs, SelectionOf(evidence, modifiers));
    assert Coding(e, m).exclusionReasons == FlatMap(bs, ExclusionOf);
    assert bs[0] == CtChestBranch(e);
    BranchRuleIds(e, m);
    RuleIdsDistinct();
    ContrastTables(e);
    ExcludedBranch(bs, 0, evidence, modifiers);
  }

  /** A study that is neither CT, MRI, US, XR nor IR, without the intervention flag,
    * gets no primary code and no exclusion reason, and so needs review. */
  lemma UnknownModalityNeedsReview(e: ExtractedEncounter, m: ReportMatches)
    requires !IsModality(e, "CT") && !IsModality(e, "MRI") && !IsModality(e, "US")
    requires !IsModality(e, "XR") && !IsModality(e, "IR") && !e.interventionFlag
    ensures Coding(e, m).primaryCpts == [] && Coding(e, m).exclusionReasons == []
    ensures Coding(e, m).requiresHumanReview
  {
    var bs := Branches(e, m);
    assert forall i :: 0 <= i < |bs| ==> !bs[i].applies;
    FlatMapUpToEmpty(bs, |bs|, SelectionOf(BuildEvidence(e), Modifiers(e)));
    FlatMapUpToEmpty(bs, |bs|, ExclusionOf);
  }

  /** An interventional study whose report mentions a drainage gets the drainage code as
    * its interventional selection, even when a biopsy is mentioned too. */
  lemma DrainageBeforeBiopsy(e: ExtractedEncounter, m: ReportMatches)
    requires (IsModality(e, "IR") || e.interventionFlag) && m.drainage
    ensures BuildSelection(IrDrainage, IrRule,
                           BuildEvidence(e), Modifiers(e)) in Coding(e, m).primaryCpts
    ensures forall s :: s in Coding(e, m).primaryCpts && s.ruleId == IrRule ==> s.code == "49406"
  {
    var bs := Branches(e, m);
    var evidence, modifiers := BuildEvidence(e), Modifiers(e);
    assert Coding(e, m).primaryCpts == FlatMap(bs, SelectionOf(evidence, modifiers));
    var b := IrBranch(e, m);
    assert bs[5] == b && b.applies && b.ruleId == IrRule;
    assert b.code == Some(IrDrainage);
    BranchRuleIds(e, m);
    RuleIdsDistinct();
    SelectionsUnder(bs, 5, evidence, modifiers);
  }
}
