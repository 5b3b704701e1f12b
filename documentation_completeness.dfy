/** The documentation completeness scorer: a weighted score over the Indication,
  * Technique and Impression sections and the radiologist's signature, with a warning for
  * each missing part.  The score is kept in hundredths, which rounding to two decimals
  * makes exact. */
module DocumentationCompleteness {
  import opened Text
  import opened Sequences
  import SD = SectionDetector

  const MissingIndication := "MISSING_INDICATION_SECTION"
  const MissingTechnique := "MISSING_TECHNIQUE_SECTION"
  const MissingImpression := "MISSING_IMPRESSION_SECTION"
  const MissingSignature := "MISSING_SIGNATURE_SECTION"

  /** The weights, in hundredths. */
  const IndicationWeight := 40
  const TechniqueWeight := 15
  const ImpressionWeight := 35
  const SignatureWeight := 10

  /** DocumentationCompletenessResult: the score in hundredths and the warnings. */
  datatype CompletenessResult = CompletenessResult(score: int, warnings: seq<string>)

  /** Whether the report carries a signature line ("signed", "electronically signed",
    * "dictated", ... at the start of a line) is decided by a regular expression outside
    * this model. */
  type SignatureCheck = string -> bool

  /** The score: the weight of each part that is present. */
  function Score(sections: map<string, SD.SectionInfo>, signed: bool): int {
    (if SD.HasContent(sections, SD.Indication) then IndicationWeight else 0) +
    (if SD.HasContent(sections, SD.Technique) then TechniqueWeight else 0) +
    (if SD.HasContent(sections, SD.Impression) then ImpressionWeight else 0) +
    (if signed then SignatureWeight else 0)
  }

  /** The warning a part raises when it is missing, or none. */
  function WarnIf(missing: bool, warning: string): seq<string> {
    if missing then [warning] else []
  }

  /** The warnings: one per missing part, in the order Indication, Technique, Impression,
    * signature. */
  function Warnings(sections: map<string, SD.SectionInfo>, signed: bool): seq<string> {
    WarnIf(!SD.HasContent(sections, SD.Indication), MissingIndication) +
    WarnIf(!SD.HasContent(sections, SD.Technique), MissingTechnique) +
    WarnIf(!SD.HasContent(sections, SD.Impression), MissingImpression) +
    WarnIf(!signed, MissingSignature)
  }

  /** Evaluate: adds the weight of each present section and of the signature, and a
    * warning for each one missing. */
  method Evaluate(reportText: string, sections: map<string, SD.SectionInfo>, signature: SignatureCheck)
    returns (result: CompletenessResult)
    ensures result.score == Score(sections, signature(reportText))
    ensures result.warnings == Warnings(sections, signature(reportText))
  {
    var warnings: seq<string> := [];
    var score := 0;
    var weight;
    weight, warnings := AddSectionScore(sections, SD.Indication, IndicationWeight, warnings, MissingIndication);
    score := score + weight;
    weight, warnings := AddSectionScore(sections, SD.Technique, TechniqueWeight, warnings, MissingTechnique);
    score := score + weight;
    weight, warnings := AddSectionScore(sections, SD.Impression, ImpressionWeight, warnings, MissingImpression);
    score := score + weight;
    if signature(reportText) {
      score := score + SignatureWeight;
    } else {
      warnings := warnings + [MissingSignature];
    }
    result := CompletenessResult(score, warnings);
  }

  /** AddSectionScore: the weight when the section is present and not blank; otherwise
    * nothing, and the warning is appended. */
  method AddSectionScore(sections: map<string, SD.SectionInfo>, sectionName: string, weight: int,
                         warnings: seq<string>, warning: string)
    returns (earned: int, warnings': seq<string>)
    ensures SD.HasContent(sections, sectionName) ==> earned == weight && warnings' == warnings
    ensures !SD.HasContent(sections, sectionName) ==> earned == 0 && warnings' == warnings + [warning]
  {
    if sectionName in sections && !IsBlank(sections[sectionName].contentText) {
      return weight, warnings;
    }
    return 0, warnings + [warning];
  }

  // ---------------------------------------------------------------------
  // Properties

  lemma WarningNamesDistinct()
    ensures MissingIndication != MissingTechnique && MissingIndication != MissingImpression
    ensures MissingIndication != MissingSignature && MissingTechnique != MissingImpression
    ensures MissingTechnique != MissingSignature && MissingImpression != MissingSignature
  {
    assert MissingIndication[8] != MissingTechnique[8] && MissingIndication[9] != MissingImpression[9];
    assert MissingIndication[8] != MissingSignature[8] && MissingTechnique[8] != MissingImpression[8];
    assert MissingTechnique[8] != MissingSignature[8] && MissingImpression[8] != MissingSignature[8];
  }

  /** Each warning is raised exactly when its part is missing. */
  lemma WarningsExactly(sections: map<string, SD.SectionInfo>, signed: bool)
    ensures var w := Warnings(sections, signed);
      (MissingIndication in w <==> !SD.HasContent(sections, SD.Indication)) &&
      (MissingTechnique in w <==> !SD.HasContent(sections, SD.Technique)) &&
      (MissingImpression in w <==> !SD.HasContent(sections, SD.Impression)) &&
      (MissingSignature in w <==> !signed)
  {
    WarningNamesDistinct();
  }

  /** The warning for a part that is missing, its weight lost. */
  function WeightOf(warning: string): int {
    if warning == MissingIndication then IndicationWeight
    else if warning == MissingTechnique then TechniqueWeight
    else if warning == MissingImpression then ImpressionWeight
    else if warning == MissingSignature then SignatureWeight
    else 0
  }

  function Penalty(warnings: seq<string>): int {
    if warnings == [] then 0 else WeightOf(warnings[0]) + Penalty(warnings[1..])
  }

  /** The score is the full 100 less the weight of every part a warning reports missing. */
  lemma ScoreFromWarnings(sections: map<string, SD.SectionInfo>, signed: bool)
    ensures Score(sections, signed) == 100 - Penalty(Warnings(sections, signed))
  {
    WarningNamesDistinct();
    var a := WarnIf(!SD.HasContent(sections, SD.Indication), MissingIndication);
    var b := WarnIf(!SD.HasContent(sections, SD.Technique), MissingTechnique);
    var c := WarnIf(!SD.HasContent(sections, SD.Impression), MissingImpression);
    var d := WarnIf(!signed, MissingSignature);
    PenaltyAppend(a + b + c, d);
    PenaltyAppend(a + b, c);
    PenaltyAppend(a, b);
  }

  lemma {:induction false} PenaltyAppend(a: seq<string>, b: seq<string>)
    ensures Penalty(a + b) == Penalty(a) + Penalty(b)
  {
    if a != [] {
      assert (a + b)[0] == a[0] && (a + b)[1..] == a[1..] + b;
      PenaltyAppend(a[1..], b);
    } else {
      assert a + b == b;
    }
  }

  /** The score lies between 0 and 100 hundredths. */
  lemma ScoreBounds(sections: map<string, SD.SectionInfo>, signed: bool)
    ensures 0 <= Score(sections, signed) <= 100
  {
  }

  /** The score is the full 100 exactly when no warning is raised. */
  lemma FullScoreIffNoWarnings(sections: map<string, SD.SectionInfo>, signed: bool)
    ensures Score(sections, signed) == 100 <==> Warnings(sections, signed) == []
  {
    if Warnings(sections, signed) == [] {
      assert |Warnings(sections, signed)| == 0;
    }
  }

  /** Only the Indication, Technique and Impression sections count: the Findings section,
    * or any other, never changes the result. */
  lemma OnlyScoredSectionsMatter(s1: map<string, SD.SectionInfo>, s2: map<string, SD.SectionInfo>, signed: bool)
    requires forall name :: name in [SD.Indication, SD.Technique, SD.Impression] ==>
      SD.HasContent(s1, name) == SD.HasContent(s2, name)
    ensures Score(s1, signed) == Score(s2, signed) && Warnings(s1, signed) == Warnings(s2, signed)
  {
    assert SD.Indication in [SD.Indication, SD.Technique, SD.Impression];
    assert SD.Technique in [SD.Indication, SD.Technique, SD.Impression];
    assert SD.Impression in [SD.Indication, SD.Technique, SD.Impression];
  }

  /** A report without Indication content is warned about it and scores below 100. */
  lemma MissingIndicationPenalized(sections: map<string, SD.SectionInfo>, signed: bool)
    requires !SD.HasContent(sections, SD.Indication)
    ensures MissingIndication in Warnings(sections, signed)
    ensures Score(sections, signed) < 100
  {
    WarningsExactly(sections, signed);
  }
}
