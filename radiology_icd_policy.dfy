/** Which extracted concepts may become the primary or a secondary ICD-10-CM diagnosis
  * of a radiology claim, and in what order primary candidates are preferred. */
module RadiologyIcdPolicy {
  import opened Text
  import opened Encounter

  predicate IsIndicationConcept(c: RadiologyConcept) {
    EqIgnoreCase(c.sourcePriority, "INDICATION")
  }

  predicate IsImpressionConcept(c: RadiologyConcept) {
    EqIgnoreCase(c.sourcePriority, "IMPRESSION")
  }

  predicate IsIncidentalConcept(c: RadiologyConcept) {
    EqIgnoreCase(c.relevance, "INCIDENTAL")
  }

  /** A concept that was ruled out or stated negatively. */
  predicate IsExcludedConcept(c: RadiologyConcept) {
    EqIgnoreCase(c.certainty, "RULED_OUT") || EqIgnoreCase(c.polarity, "NEGATIVE")
  }

  /** IsEligibleForPrimary: an indication or impression concept that is neither excluded
    * nor incidental. */
  predicate IsEligibleForPrimary(c: RadiologyConcept) {
    if !IsIndicationConcept(c) && !IsImpressionConcept(c) then false
    else !IsExcludedConcept(c) && !IsIncidentalConcept(c)
  }

  /** IsEligibleForSecondary: any concept that is neither excluded nor incidental. */
  predicate IsEligibleForSecondary(c: RadiologyConcept) {
    !IsExcludedConcept(c) && !IsIncidentalConcept(c)
  }

  /** GetPrimaryPriority: impression concepts first, then indication concepts, then the
    * rest; a lower number is preferred. */
  function GetPrimaryPriority(c: RadiologyConcept): int {
    if IsImpressionConcept(c) then 0
    else if IsIndicationConcept(c) then 1
    else 2
  }

  /** Primary eligibility, condition by condition, ignoring case: the source section is
    * the indication or the impression, and the concept is not ruled out, not negative
    * and not incidental. */
  lemma PrimaryEligibility(c: RadiologyConcept)
    ensures IsEligibleForPrimary(c) <==>
      (EqIgnoreCase(c.sourcePriority, "INDICATION") || EqIgnoreCase(c.sourcePriority, "IMPRESSION"))
      && !EqIgnoreCase(c.certainty, "RULED_OUT")
      && !EqIgnoreCase(c.polarity, "NEGATIVE")
      && !EqIgnoreCase(c.relevance, "INCIDENTAL")
  {
  }

  /** A primary candidate is always a secondary candidate too, and a secondary candidate is
    * a primary one exactly when it comes from the indication or the impression. */
  lemma PrimaryIsSecondary(c: RadiologyConcept)
    ensures IsEligibleForPrimary(c) ==> IsEligibleForSecondary(c)
    ensures IsEligibleForSecondary(c) && (IsIndicationConcept(c) || IsImpressionConcept(c)) ==> IsEligibleForPrimary(c)
  {
  }

  /** The priority is 0, 1 or 2; every primary candidate ranks above the concepts from
    * other sections, and an impression concept above an indication concept. */
  lemma PriorityOrder(c: RadiologyConcept, d: RadiologyConcept)
    ensures 0 <= GetPrimaryPriority(c) <= 2
    ensures GetPrimaryPriority(c) == 0 <==> IsImpressionConcept(c)
    ensures IsEligibleForPrimary(c) ==> GetPrimaryPriority(c) < 2
    ensures IsEligibleForPrimary(c) && !IsIndicationConcept(d) && !IsImpressionConcept(d) ==>
      GetPrimaryPriority(c) < GetPrimaryPriority(d)
    ensures IsImpressionConcept(c) && IsIndicationConcept(d) ==> GetPrimaryPriority(c) < GetPrimaryPriority(d)
  {
    ImpressionIsNotIndication(d);
  }

  /** "IMPRESSION" and "INDICATION" differ, so no concept is both. */
  lemma ImpressionIsNotIndication(c: RadiologyConcept)
    ensures !(IsImpressionConcept(c) && IsIndicationConcept(c))
  {
    assert Lower("IMPRESSION")[1] == 'm' && Lower("INDICATION")[1] == 'n';
  }

  /** An indication concept ranks 1: it cannot be an impression concept as well. */
  lemma IndicationRanksOne(c: RadiologyConcept)
    requires IsIndicationConcept(c)
    ensures GetPrimaryPriority(c) == 1
  {
    ImpressionIsNotIndication(c);
  }

  // ---------------------------------------------------------------------
  // The policy's unit tests, as properties of concepts with those field values

  /** A ruled-out indication concept is rejected. */
  lemma RejectsRuledOut(c: RadiologyConcept)
    requires c.sourcePriority == "INDICATION" && c.certainty == "RULED_OUT" && c.polarity == "POSITIVE"
    ensures !IsEligibleForPrimary(c)
  {
  }

  /** A negative indication concept is rejected. */
  lemma RejectsNegative(c: RadiologyConcept)
    requires c.sourcePriority == "INDICATION" && c.certainty == "CONFIRMED" && c.polarity == "NEGATIVE"
    ensures !IsEligibleForPrimary(c)
  {
  }

  /** A findings concept is rejected, however certain and positive. */
  lemma RejectsFindings(c: RadiologyConcept)
    requires c.sourcePriority == "FINDINGS" && c.certainty == "CONFIRMED" && c.polarity == "POSITIVE"
    ensures !IsEligibleForPrimary(c)
  {
    assert |Lower(c.sourcePriority)| == 8;
  }

  /** A confirmed, positive, indication-related impression concept is accepted. */
  lemma AcceptsImpression(c: RadiologyConcept)
    requires c.sourcePriority == "IMPRESSION" && c.certainty == "CONFIRMED" && c.polarity == "POSITIVE"
    requires c.relevance == "INDICATION_RELATED"
    ensures IsEligibleForPrimary(c)
  {
    assert Lower(c.certainty)[0] == 'c' && Lower("RULED_OUT")[0] == 'r';
    assert Lower(c.polarity)[0] == 'p' && Lower("NEGATIVE")[0] == 'n';
    assert |Lower(c.relevance)| == 18 && |Lower("INCIDENTAL")| == 10;
  }

  /** An incidental impression concept is rejected. */
  lemma RejectsIncidental(c: RadiologyConcept)
    requires c.sourcePriority == "IMPRESSION" && c.certainty == "CONFIRMED" && c.polarity == "POSITIVE"
    requires c.relevance == "INCIDENTAL"
    ensures !IsEligibleForPrimary(c)
  {
  }
}
