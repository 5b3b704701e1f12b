/** The radiology extraction service: detects the sections of a report, resolves the
  * concept packs for its modality and body region, extracts the concepts, scores the
  * documentation, and assembles the extracted encounter with its warnings. */
module RadiologyExtraction {
  import opened Text
  import opened Sequences
  import SD = SectionDetector
  import CP = ConceptPacks
  import CE = ConceptExtractor
  import DC = DocumentationCompleteness
  import Encounter
  import SafetyGate

  const Unknown := "UNKNOWN"
  const ModalityUnknown := "MODALITY_UNKNOWN"
  const BodyRegionUnknown := "BODY_REGION_UNKNOWN"
  const FallbackGlobalOnly := "CONCEPT_PACK_FALLBACK_GLOBAL_ONLY"
  const NoPackMatch := "CONCEPT_PACK_NO_MATCH"

  /** What the modality and body region extractor reports; that extractor is outside this
    * model. */
  datatype ModalityResult = ModalityResult(
    modality: string, bodyRegion: string,
    modalityEvidenceSpans: seq<string>, bodyRegionEvidenceSpans: seq<string>)

  /** Exactly one pack applied, and it is GLOBAL (compared ignoring case). */
  predicate GlobalOnly(r: CP.ConceptPackResolution) {
    |r.appliedPacks| == 1 && EqIgnoreCase(r.appliedPacks[0], CP.Global)
  }

  /** The service's own warnings, in the order it checks them. */
  function ServiceWarnings(m: ModalityResult, r: CP.ConceptPackResolution): seq<string> {
    DC.WarnIf(EqIgnoreCase(m.modality, Unknown), ModalityUnknown) +
    DC.WarnIf(EqIgnoreCase(m.bodyRegion, Unknown), BodyRegionUnknown) +
    DC.WarnIf(GlobalOnly(r), FallbackGlobalOnly) +
    DC.WarnIf(r.patterns == [], NoPackMatch)
  }

  /** The sections Detect returns for the report and its heading matches. */
  function DetectedSections(reportText: string, headings: seq<SD.HeadingMatch>): map<string, SD.SectionInfo> {
    map c | c in SD.SectionNames :: SD.SectionFor(reportText, SD.SortedHeadings(reportText, headings), c)
  }

  /** The encounter's sections: each detected section's content, trimmed. */
  function TrimmedSections(sections: map<string, SD.SectionInfo>): map<string, string> {
    map k | k in sections :: Trim(sections[k].contentText)
  }

  /** The Indication entry of the trimmed sections, or the empty string for none. */
  function IndicationTextOf(trimmed: map<string, string>): string {
    if SD.Indication in trimmed then trimmed[SD.Indication] else ""
  }

  /** The encounter Extract assembles; the properties it does not set keep their
    * initial values. */
  function Extracted(encounterId: string, reportText: string, headings: seq<SD.HeadingMatch>, m: ModalityResult,
                     packs: seq<CP.Pack>, o: CE.Oracles, signature: DC.SignatureCheck): Encounter.ExtractedEncounter
  {
    var sections := DetectedSections(reportText, headings);
    var resolution := CP.Resolution(packs, m.modality, m.bodyRegion);
    var signed := signature(reportText);
    var trimmed := TrimmedSections(sections);
    Encounter.NewEncounter.(
      encounterId := encounterId,
      modality := m.modality,
      bodyRegion := m.bodyRegion,
      indicationText := IndicationTextOf(trimmed),
      sections := trimmed,
      completenessScore := DC.Score(sections, signed),
      warnings := DC.Warnings(sections, signed) + ServiceWarnings(m, resolution),
      concepts := CE.Extraction(o, sections, resolution.patterns),
      modalityEvidenceSpans := m.modalityEvidenceSpans,
      bodyRegionEvidenceSpans := m.bodyRegionEvidenceSpans)
  }

  /** Extract: runs the section detector, the pack registry, the concept extractor and
    * the completeness scorer, and collects the warnings.  The heading matches, the
    * modality result, the resolver verdicts and the signature check come from outside. */
  method Extract(encounterId: string, reportText: string, headings: seq<SD.HeadingMatch>, m: ModalityResult,
                 packs: seq<CP.Pack>, o: CE.Oracles, signature: DC.SignatureCheck)
    returns (e: Encounter.ExtractedEncounter)
    ensures e == Extracted(encounterId, reportText, headings, m, packs, o, signature)
  {
    var sections := SD.Detect(reportText, headings);
    assert sections == DetectedSections(reportText, headings);
    var packResolution := CP.Resolve(packs, m.modality, m.bodyRegion);
    var concepts := CE.Extract(o, reportText, sections, packResolution.patterns);
    var completeness := DC.Evaluate(reportText, sections, signature);
    var warnings := CollectWarnings(completeness.warnings, m, packResolution);
    var trimmed := map k | k in sections :: Trim(sections[k].contentText);
    var indicationText := if SD.Indication in trimmed then trimmed[SD.Indication] else "";
    e := Encounter.NewEncounter.(
      encounterId := encounterId,
      modality := m.modality,
      bodyRegion := m.bodyRegion,
      indicationText := indicationText,
      sections := trimmed,
      completenessScore := completeness.score,
      warnings := warnings,
      concepts := concepts,
      modalityEvidenceSpans := m.modalityEvidenceSpans,
      bodyRegionEvidenceSpans := m.bodyRegionEvidenceSpans);
  }

  /** Extract's warning list: the completeness warnings, then each of the service's
    * warnings whose condition holds. */
  method CollectWarnings(completenessWarnings: seq<string>, m: ModalityResult, packResolution: CP.ConceptPackResolution)
    returns (warnings: seq<string>)
    ensures warnings == completenessWarnings + ServiceWarnings(m, packResolution)
  {
    warnings := [];
    warnings := warnings + completenessWarnings;
    if EqIgnoreCase(m.modality, Unknown) {
      warnings := warnings + [ModalityUnknown];
    }
    if EqIgnoreCase(m.bodyRegion, Unknown) {
      warnings := warnings + [BodyRegionUnknown];
    }
    if |packResolution.appliedPacks| == 1 && EqIgnoreCase(packResolution.appliedPacks[0], CP.Global) {
      warnings := warnings + [FallbackGlobalOnly];
    }
    if |packResolution.patterns| == 0 {
      warnings := warnings + [NoPackMatch];
    }
  }

  // ---------------------------------------------------------------------
  // Properties

  lemma ServiceWarningNamesDistinct()
    ensures ModalityUnknown != BodyRegionUnknown && ModalityUnknown != FallbackGlobalOnly
    ensures ModalityUnknown != NoPackMatch && BodyRegionUnknown != FallbackGlobalOnly
    ensures BodyRegionUnknown != NoPackMatch && FallbackGlobalOnly != NoPackMatch
  {
    assert |ModalityUnknown| == 16 && |BodyRegionUnknown| == 19;
    assert |FallbackGlobalOnly| == 33 && |NoPackMatch| == 21;
  }

  /** Each of the service's warnings is raised exactly when its condition holds: an
    * unknown modality, an unknown body region, the GLOBAL pack alone, no pattern. */
  lemma ServiceWarningsExactly(m: ModalityResult, r: CP.ConceptPackResolution)
    ensures var w := ServiceWarnings(m, r);
      (ModalityUnknown in w <==> EqIgnoreCase(m.modality, Unknown)) &&
      (BodyRegionUnknown in w <==> EqIgnoreCase(m.bodyRegion, Unknown)) &&
      (FallbackGlobalOnly in w <==> GlobalOnly(r)) &&
      (NoPackMatch in w <==> r.patterns == [])
  {
    ServiceWarningNamesDistinct();
  }

  /** The pack fallback warning is raised exactly when the applied packs are just
    * ["GLOBAL"], which is when the modality is none of CT, MRI and US. */
  lemma FallbackIffGlobalOnly(packs: seq<CP.Pack>, modality: string, bodyRegion: string)
    ensures var r := CP.Resolution(packs, modality, bodyRegion);
      (GlobalOnly(r) <==> r.appliedPacks == [CP.Global]) &&
      (GlobalOnly(r) <==> CP.Normalize(modality) != "CT" && CP.Normalize(modality) != "MRI" && CP.Normalize(modality) != "US")
  {
    var r := CP.Resolution(packs, modality, bodyRegion);
    CP.GlobalOnlyIff(modality, bodyRegion);
    if |r.appliedPacks| == 1 {
      assert r.appliedPacks == [r.appliedPacks[0]];
    }
  }

  /** With the default registry some pattern always resolves, since GLOBAL always applies
    * and has patterns, so CONCEPT_PACK_NO_MATCH is never raised. */
  lemma DefaultRegistryAlwaysMatches(modality: string, bodyRegion: string)
    ensures CP.Resolution(CP.DefaultPacks, modality, bodyRegion).patterns != []
  {
    var p := CP.GlobalPatterns[0];
    assert EqIgnoreCase(CP.DefaultPacks[0].name, CP.Global);
    assert CP.PackIndex(CP.DefaultPacks, CP.Global) == 0;
    assert p in CP.PatternsOf(CP.DefaultPacks, CP.AppliedPacks(modality, bodyRegion)[0]);
    CP.RegisteredPatternsResolved(CP.DefaultPacks, modality, bodyRegion, 0, p);
  }

  /** With an empty registry nothing resolves and CONCEPT_PACK_NO_MATCH is raised. */
  lemma EmptyRegistryNoMatch(m: ModalityResult)
    ensures NoPackMatch in ServiceWarnings(m, CP.Resolution([], m.modality, m.bodyRegion))
  {
    CP.EmptyRegistryNoPatterns(CP.AppliedPacks(m.modality, m.bodyRegion));
  }

  /** The encounter's sections are the four detected sections, each with its content
    * trimmed, and its indication text is the trimmed Indication content. */
  lemma ExtractedSections(encounterId: string, reportText: string, headings: seq<SD.HeadingMatch>, m: ModalityResult,
                          packs: seq<CP.Pack>, o: CE.Oracles, signature: DC.SignatureCheck)
    ensures var e := Extracted(encounterId, reportText, headings, m, packs, o, signature);
      var detected := DetectedSections(reportText, headings);
      e.sections.Keys == SD.SectionNames &&
      (forall k :: k in e.sections ==> e.sections[k] == Trim(detected[k].contentText)) &&
      e.indicationText == Trim(detected[SD.Indication].contentText)
  {
    var detected := DetectedSections(reportText, headings);
    assert detected.Keys == SD.SectionNames;
    assert SD.Indication in SD.SectionNames;
  }

  // ---------------------------------------------------------------------
  // What the safety gate sees in the encounter

  /** No warning but the fallback warning itself is as long as the fallback warning. */
  lemma WarningLengths(sections: map<string, SD.SectionInfo>, signed: bool, m: ModalityResult, r: CP.ConceptPackResolution)
    ensures forall w :: w in DC.Warnings(sections, signed) + ServiceWarnings(m, r) ==>
      w == FallbackGlobalOnly || |w| != |FallbackGlobalOnly|
  {
    assert |FallbackGlobalOnly| == 33;
    assert |DC.MissingIndication| == 26 && |DC.MissingTechnique| == 25;
    assert |DC.MissingImpression| == 26 && |DC.MissingSignature| == 25;
    assert |ModalityUnknown| == 16 && |BodyRegionUnknown| == 19 && |NoPackMatch| == 21;
  }

  /** Some warning equals the fallback warning ignoring case exactly when only the GLOBAL
    * pack applied. */
  lemma FallbackWarningIff(sections: map<string, SD.SectionInfo>, signed: bool, m: ModalityResult,
                           r: CP.ConceptPackResolution)
    ensures ContainsIgnoreCase(DC.Warnings(sections, signed) + ServiceWarnings(m, r), FallbackGlobalOnly) <==> GlobalOnly(r)
  {
    var ws := DC.Warnings(sections, signed) + ServiceWarnings(m, r);
    if ContainsIgnoreCase(ws, FallbackGlobalOnly) {
      var i :| 0 <= i < |ws| && EqIgnoreCase(ws[i], FallbackGlobalOnly);
      EqIgnoreCaseLength(ws[i], FallbackGlobalOnly);
      assert ws[i] == FallbackGlobalOnly by {
        assert ws[i] in ws;
        WarningLengths(sections, signed, m, r);
      }
      assert FallbackGlobalOnly in ServiceWarnings(m, r) by {
        DC.WarningNamesDistinct();
        assert |FallbackGlobalOnly| == 33;
        assert FallbackGlobalOnly !in DC.Warnings(sections, signed);
      }
      ServiceWarningsExactly(m, r);
    }
    if GlobalOnly(r) {
      ServiceWarningsExactly(m, r);
      assert FallbackGlobalOnly in ws;
      var i :| 0 <= i < |ws| && ws[i] == FallbackGlobalOnly;
      assert EqIgnoreCase(ws[i], FallbackGlobalOnly);
    }
  }

  /** The gate raises PACK_FALLBACK_GLOBAL_ONLY for an extracted encounter exactly when
    * only the GLOBAL pack applied: no other warning can be mistaken for the fallback
    * warning, even ignoring case. */
  lemma GateSeesFallback(encounterId: string, reportText: string, headings: seq<SD.HeadingMatch>, m: ModalityResult,
                         packs: seq<CP.Pack>, o: CE.Oracles, signature: DC.SignatureCheck)
    ensures SafetyGate.Raised(Extracted(encounterId, reportText, headings, m, packs, o, signature), SafetyGate.PackFallbackFlag)
      <==> GlobalOnly(CP.Resolution(packs, m.modality, m.bodyRegion))
  {
    var e := Extracted(encounterId, reportText, headings, m, packs, o, signature);
    var r := CP.Resolution(packs, m.modality, m.bodyRegion);
    var sections := DetectedSections(reportText, headings);
    var signed := signature(reportText);
    assert e.warnings == DC.Warnings(sections, signed) + ServiceWarnings(m, r);
    FallbackWarningIff(sections, signed, m, r);
  }

  /** The gate raises MISSING_INDICATION_OR_IMPRESSION for an extracted encounter exactly
    * when the scorer warned MISSING_INDICATION_SECTION: the encounter always has an
    * Indication section and no impression concepts, so its Indication content alone
    * decides. */
  lemma GateSeesMissingIndication(encounterId: string, reportText: string, headings: seq<SD.HeadingMatch>,
                                  m: ModalityResult, packs: seq<CP.Pack>, o: CE.Oracles, signature: DC.SignatureCheck)
    ensures SafetyGate.Raised(Extracted(encounterId, reportText, headings, m, packs, o, signature), SafetyGate.MissingIndicationFlag)
      <==> DC.MissingIndication in DC.Warnings(DetectedSections(reportText, headings), signature(reportText))
  {
    var e := Extracted(encounterId, reportText, headings, m, packs, o, signature);
    var detected := DetectedSections(reportText, headings);
    ExtractedSections(encounterId, reportText, headings, m, packs, o, signature);
    DC.WarningsExactly(detected, signature(reportText));
    TrimBlank(detected[SD.Indication].contentText);
    assert SD.Indication in e.sections;
    assert SafetyGate.Raised(e, SafetyGate.MissingIndicationFlag) <==> !SafetyGate.HasIndicationOrImpression(e);
  }
}
