/** The extracted radiology encounter that the extraction worker produces and the
  * coding worker consumes, and the results of CPT and ICD coding. */
module Encounter {
  import opened Text

  /** A clinical concept found in the report; its classifications are the strings the
    * extractor writes ("RULED_OUT", "NEGATIVE", "INDICATION", "INCIDENTAL", ...). */
  datatype RadiologyConcept = RadiologyConcept(
    text: string,
    certainty: string,
    polarity: string,
    temporality: string,
    sourcePriority: string,
    relevance: string,
    evidenceSpans: seq<string>)

  /** ExtractedRadiologyEncounter. A null string is "", the completeness score is in
    * hundredths, and dates are day numbers. */
  datatype ExtractedEncounter = ExtractedEncounter(
    encounterId: string,
    payerId: string,
    dateOfService: Option<int>,
    modality: string,
    bodyRegion: string,
    bodyRegions: seq<string>,
    laterality: string,
    contrastState: string,
    viewsOrCompleteness: string,
    guidanceFlag: bool,
    interventionFlag: bool,
    billingContext: string,
    indicationText: string,
    sections: map<string, string>,
    completenessScore: int,
    warnings: seq<string>,
    concepts: seq<RadiologyConcept>,
    impressionConcepts: seq<RadiologyConcept>,
    reportText: string,
    indicationEvidenceSpans: seq<string>,
    modalityEvidenceSpans: seq<string>,
    bodyRegionEvidenceSpans: seq<string>,
    lateralityEvidenceSpans: seq<string>,
    contrastEvidenceSpans: seq<string>,
    viewsOrCompletenessEvidenceSpans: seq<string>,
    guidanceEvidenceSpans: seq<string>,
    interventionEvidenceSpans: seq<string>)

  /** A new encounter: every property at its initializer. */
  const NewEncounter := ExtractedEncounter(
    "", "DEFAULT", None, "", "", [], "", "", "", false, false, "GLOBAL", "", map[], 0, [], [], [], "",
    [], [], [], [], [], [], [], [])

  // ---------------------------------------------------------------------
  // Coding results

  /** A selected CPT code (confidence and rationale are not modelled). */
  datatype CptCodeSelection = CptCodeSelection(
    code: string,
    description: string,
    modifiers: seq<string>,
    ruleId: string,
    ruleVersion: string,
    evidenceSpans: seq<string>)

  datatype CptCodingResult = CptCodingResult(
    primaryCpts: seq<CptCodeSelection>,
    addOnCpts: seq<CptCodeSelection>,
    exclusionReasons: seq<string>,
    requiresHumanReview: bool)

  /** An ICD-10-CM candidate from terminology search (scores are not modelled). */
  datatype IcdCandidate = IcdCandidate(code: string)

  datatype RadiologyIcdCodingResult = RadiologyIcdCodingResult(
    secondaryCandidates: seq<IcdCandidate>,
    primaryIcd: Option<IcdCandidate>)
}
