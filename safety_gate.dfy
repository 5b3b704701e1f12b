/** The safety gate: the conditions under which the coding worker may select codes
  * without a human, each of which raises a named flag when it fails. */
module SafetyGate {
  import opened Text
  import opened Sequences
  import opened Encounter

  const MissingIndicationFlag := "MISSING_INDICATION_OR_IMPRESSION"
  const LowCompletenessFlag := "LOW_DOCUMENTATION_COMPLETENESS"
  const PackFallbackFlag := "PACK_FALLBACK_GLOBAL_ONLY"
  const ModalityUnknownFlag := "MODALITY_UNKNOWN"

  /** The warning the extractor records when only the global concept pack applied. */
  const PackFallbackWarning := "CONCEPT_PACK_FALLBACK_GLOBAL_ONLY"

  /** The lowest completeness score, in hundredths, that does not block (0.70). */
  const MinCompleteness := 70

  /** The flags in the order Evaluate checks them. */
  const FlagOrder := [MissingIndicationFlag, LowCompletenessFlag, PackFallbackFlag, ModalityUnknownFlag]

  datatype SafetyGateResult = SafetyGateResult(canAutoSelect: bool, flags: seq<string>)

  /** HasIndicationOrImpression: an indication text or an impression concept suffices;
    * otherwise an "Indication" section decides whenever there is one, and only without it
    * does an "Impression" section. */
  predicate HasIndicationOrImpression(e: ExtractedEncounter) {
    if !IsBlank(e.indicationText) then true
    else if |e.impressionConcepts| > 0 then true
    else if "Indication" in e.sections then !IsBlank(e.sections["Indication"])
    else if "Impression" in e.sections then !IsBlank(e.sections["Impression"])
    else false
  }

  predicate IsModalityUnknown(e: ExtractedEncounter) {
    IsBlank(e.modality) || EqIgnoreCase(e.modality, "UNKNOWN")
  }

  /** Whether a flag is raised for the encounter: each flag by its own condition. */
  predicate Raised(e: ExtractedEncounter, flag: string) {
    if flag == MissingIndicationFlag then !HasIndicationOrImpression(e)
    else if flag == LowCompletenessFlag then e.completenessScore < MinCompleteness
    else if flag == PackFallbackFlag then ContainsIgnoreCase(e.warnings, PackFallbackWarning)
    else if flag == ModalityUnknownFlag then IsModalityUnknown(e)
    else false
  }

  function RaisedFor(e: ExtractedEncounter): string -> bool {
    (flag: string) => Raised(e, flag)
  }

  /** The gate's verdict: the raised flags in the fixed order, and automatic selection
    * exactly when there are none. */
  function Gate(e: ExtractedEncounter): SafetyGateResult {
    var flags := Filter(FlagOrder, RaisedFor(e));
    SafetyGateResult(flags == [], flags)
  }

  /** Evaluate: checks the indication, the completeness score, the pack warning and the
    * modality in turn, appending a flag for each that fails. */
  method Evaluate(e: ExtractedEncounter) returns (result: SafetyGateResult)
    ensures result == Gate(e)
  {
    var flags: seq<string> := [];
    if !HasIndicationOrImpression(e) {
      flags := flags + [MissingIndicationFlag];
    }
    if e.completenessScore < MinCompleteness {
      flags := flags + [LowCompletenessFlag];
    }
    if ContainsIgnoreCase(e.warnings, PackFallbackWarning) {
      flags := flags + [PackFallbackFlag];
    }
    if IsModalityUnknown(e) {
      flags := flags + [ModalityUnknownFlag];
    }
    FlagsInOrder(e);
    result := SafetyGateResult(|flags| == 0, flags);
  }

  /** The raised flags, written out in order. */
  lemma FlagsInOrder(e: ExtractedEncounter)
    ensures Filter(FlagOrder, RaisedFor(e)) ==
      (if !HasIndicationOrImpression(e) then [MissingIndicationFlag] else [])
      + (if e.completenessScore < MinCompleteness then [LowCompletenessFlag] else [])
      + (if ContainsIgnoreCase(e.warnings, PackFallbackWarning) then [PackFallbackFlag] else [])
      + (if IsModalityUnknown(e) then [ModalityUnknownFlag] else [])
  {
    var p := RaisedFor(e);
    RaisedEach(e);
    var s3 := [ModalityUnknownFlag];
    var s2 := [PackFallbackFlag] + s3;
    var s1 := [LowCompletenessFlag] + s2;
    assert FlagOrder == [MissingIndicationFlag] + s1;
    assert s3[1..] == [] && s2[1..] == s3 && s1[1..] == s2 && FlagOrder[1..] == s1;
    assert Filter(s3, p) == if IsModalityUnknown(e) then [ModalityUnknownFlag] else [];
    assert Filter(s2, p) == (if ContainsIgnoreCase(e.warnings, PackFallbackWarning) then [PackFallbackFlag] else []) + Filter(s3, p);
    assert Filter(s1, p) == (if e.completenessScore < MinCompleteness then [LowCompletenessFlag] else []) + Filter(s2, p);
    var a := if !HasIndicationOrImpression(e) then [MissingIndicationFlag] else [];
    var b := if e.completenessScore < MinCompleteness then [LowCompletenessFlag] else [];
    var c := if ContainsIgnoreCase(e.warnings, PackFallbackWarning) then [PackFallbackFlag] else [];
    var d := if IsModalityUnknown(e) then [ModalityUnknownFlag] else [];
    assert Filter(FlagOrder, p) == a + (b + (c + d));
    ConcatAssociative(a, b, c, d);
  }

  /** The four flags are distinct, so each is raised by its own condition. */
  lemma RaisedEach(e: ExtractedEncounter)
    ensures RaisedFor(e)(MissingIndicationFlag) == !HasIndicationOrImpression(e)
    ensures RaisedFor(e)(LowCompletenessFlag) == (e.completenessScore < MinCompleteness)
    ensures RaisedFor(e)(PackFallbackFlag) == ContainsIgnoreCase(e.warnings, PackFallbackWarning)
    ensures RaisedFor(e)(ModalityUnknownFlag) == IsModalityUnknown(e)
  {
    assert |MissingIndicationFlag| == 32 && |LowCompletenessFlag| == 30;
    assert |PackFallbackFlag| == 25 && |ModalityUnknownFlag| == 16;
  }

  // ---------------------------------------------------------------------
  // Properties of the verdict

  /** Each flag is raised exactly when its condition fails, and no other flag appears. */
  lemma FlagConditions(e: ExtractedEncounter)
    ensures MissingIndicationFlag in Gate(e).flags <==> !HasIndicationOrImpression(e)
    ensures LowCompletenessFlag in Gate(e).flags <==> e.completenessScore < MinCompleteness
    ensures PackFallbackFlag in Gate(e).flags <==> ContainsIgnoreCase(e.warnings, PackFallbackWarning)
    ensures ModalityUnknownFlag in Gate(e).flags <==> IsModalityUnknown(e)
    ensures forall f :: f in Gate(e).flags ==> f in FlagOrder
    ensures |Gate(e).flags| <= 4
  {
    var p := RaisedFor(e);
    FilterMembers(FlagOrder, p, MissingIndicationFlag);
    FilterMembers(FlagOrder, p, LowCompletenessFlag);
    FilterMembers(FlagOrder, p, PackFallbackFlag);
    FilterMembers(FlagOrder, p, ModalityUnknownFlag);
    forall f | f in Gate(e).flags ensures f in FlagOrder {
      FilterMembers(FlagOrder, p, f);
    }
  }

  /** Codes may be selected automatically exactly when the report has an indication or an
    * impression, the completeness score is at least 0.70, the pack fallback warning is
    * absent and the modality is known. */
  lemma CanAutoSelectExactly(e: ExtractedEncounter)
    ensures Gate(e).canAutoSelect <==>
      HasIndicationOrImpression(e) && e.completenessScore >= MinCompleteness
      && !ContainsIgnoreCase(e.warnings, PackFallbackWarning) && !IsModalityUnknown(e)
  {
    FlagsInOrder(e);
  }

  /** The indication check: an indication text or an impression concept suffices;
    * without them an "Indication" section decides on its own, even when an "Impression"
    * section exists; only without an "Indication" section does the impression section
    * count. */
  lemma IndicationCascade(e: ExtractedEncounter)
    ensures !IsBlank(e.indicationText) || e.impressionConcepts != [] ==> HasIndicationOrImpression(e)
    ensures IsBlank(e.indicationText) && e.impressionConcepts == [] && "Indication" in e.sections ==>
      (HasIndicationOrImpression(e) <==> !IsBlank(e.sections["Indication"]))
    ensures IsBlank(e.indicationText) && e.impressionConcepts == [] && "Indication" !in e.sections ==>
      (HasIndicationOrImpression(e) <==> "Impression" in e.sections && !IsBlank(e.sections["Impression"]))
  {
  }

  /** A blank "Indication" section hides a written "Impression" section: the report then
    * counts as having neither. */
  lemma BlankIndicationSectionShadowsImpression(e: ExtractedEncounter)
    requires IsBlank(e.indicationText) && e.impressionConcepts == []
    requires "Indication" in e.sections && IsBlank(e.sections["Indication"])
    ensures MissingIndicationFlag in Gate(e).flags && !Gate(e).canAutoSelect
  {
    FlagConditions(e);
  }

  // ---------------------------------------------------------------------
  // The gate's unit tests

  /** A CT encounter scored 0.95 with no indication, impression or sections is blocked for
    * the missing indication. */
  lemma MissingIndicationBlocks(e: ExtractedEncounter)
    requires e == NewEncounter.(modality := "CT", completenessScore := 95)
    ensures !Gate(e).canAutoSelect && MissingIndicationFlag in Gate(e).flags
  {
    FlagConditions(e);
  }

  /** The same encounter with an impression concept passes. */
  lemma ImpressionAllows(e: ExtractedEncounter, c: RadiologyConcept)
    requires e == NewEncounter.(modality := "CT", completenessScore := 95, impressionConcepts := [c])
    ensures Gate(e).canAutoSelect && MissingIndicationFlag !in Gate(e).flags
  {
    CanAutoSelectExactly(e);
    FlagConditions(e);
    ModalityKnown(e.modality);
  }

  /** A score of 0.69 blocks, even with an indication. */
  lemma LowCompletenessBlocks(e: ExtractedEncounter)
    requires e == NewEncounter.(modality := "CT", indicationText := "Abdominal pain", completenessScore := 69)
    ensures !Gate(e).canAutoSelect && LowCompletenessFlag in Gate(e).flags
  {
    FlagConditions(e);
  }

  /** The global-only pack fallback warning blocks. */
  lemma PackFallbackBlocks(e: ExtractedEncounter)
    requires e == NewEncounter.(modality := "CT", indicationText := "Abdominal pain", completenessScore := 95,
                                warnings := [PackFallbackWarning])
    ensures !Gate(e).canAutoSelect && PackFallbackFlag in Gate(e).flags
  {
    FlagConditions(e);
    assert EqIgnoreCase(e.warnings[0], PackFallbackWarning);
  }

  /** "CT" is a known modality. */
  lemma ModalityKnown(modality: string)
    requires modality == "CT"
    ensures !IsBlank(modality) && !EqIgnoreCase(modality, "UNKNOWN")
  {
    assert !IsWhiteSpace(modality[0]);
    assert |Lower(modality)| == 2 && |Lower("UNKNOWN")| == 7;
  }
}
