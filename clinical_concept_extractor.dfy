/** The clinical concept extractor: scans the Indication, Findings and Impression sections
  * sentence by sentence for the concept patterns, classifies every match (certainty,
  * polarity, temporality) with the scope resolvers, records its span, and then marks each
  * concept's relevance to the indication. */
module ConceptExtractor {
  import opened Text
  import opened Sequences
  import SD = SectionDetector
  import SS = SentenceSplitter
  import CP = ConceptPacks
  import NegationScope
  import HistoryScope
  import ClaimContextBuilder
  import Encounter

  /** One match of a pattern's regular expression in a sentence: Success, Index, Length
    * and Value. */
  datatype RegexMatch = RegexMatch(success: bool, index: nat, length: nat, value: string)

  /** What the extractor takes from outside this model: the matches of a pattern's regular
    * expression in a sentence, and the verdicts of the target-aware negation resolver and
    * of the uncertainty resolver. */
  datatype Oracles = Oracles(
    matches: (CP.ConceptPattern, string) -> seq<RegexMatch>,
    targetNegated: (string, string, int) -> bool,
    uncertain: (string, int) -> bool)

  /** The concepts are the encounter's RadiologyConcept records. */
  type RadiologyConcept = Encounter.RadiologyConcept

  const RuledOut := "RULED_OUT"
  const Suspected := "SUSPECTED"
  const Confirmed := "CONFIRMED"
  const Negative := "NEGATIVE"
  const Positive := "POSITIVE"
  const History := "HISTORY"
  const Current := "CURRENT"
  const PriorityIndication := "INDICATION"
  const PriorityImpression := "IMPRESSION"
  const PriorityFindings := "FINDINGS"
  const Unclear := "UNCLEAR"
  const IndicationRelated := "INDICATION_RELATED"
  const Incidental := "INCIDENTAL"

  /** The sections scanned, in this order. */
  const ScannedSections := [SD.Indication, SD.Findings, SD.Impression]

  /** MapSourcePriority: Indication and Impression have their own priority, every other
    * section counts as findings. */
  function MapSourcePriority(sectionName: string): (r: string)
    ensures r == PriorityIndication <==> sectionName == SD.Indication
    ensures r == PriorityImpression <==> sectionName == SD.Impression
    ensures r == PriorityFindings <==> sectionName != SD.Indication && sectionName != SD.Impression
  {
    PrioritiesDistinct();
    if sectionName == SD.Indication then PriorityIndication
    else if sectionName == SD.Impression then PriorityImpression
    else PriorityFindings
  }

  lemma PrioritiesDistinct()
    ensures PriorityIndication != PriorityImpression && PriorityIndication != PriorityFindings
    ensures PriorityImpression != PriorityFindings
  {
    assert PriorityIndication[1] != PriorityImpression[1];
    assert |PriorityFindings| == 8;
  }

  lemma VerdictNamesDistinct()
    ensures RuledOut != Suspected && RuledOut != Confirmed && Suspected != Confirmed
    ensures Negative != Positive && History != Current
  {
    assert |RuledOut| == 9 && RuledOut[0] != Suspected[0] && RuledOut[0] != Confirmed[0] && Suspected[0] != Confirmed[0];
    assert Negative[0] != Positive[0];
    assert |History| == 7 && |Current| == 7 && History[0] != Current[0];
  }

  /** The negation verdict: the negation scope resolver, or else the target-aware one. */
  predicate NegatedAt(o: Oracles, sentence: string, m: RegexMatch) {
    NegationScope.Negated(sentence, m.index) || o.targetNegated(sentence, m.value, m.index)
  }

  /** The evidence span "{section}:{start}-{end}". */
  function SpanText(sectionName: string, start: int, end: int): string {
    sectionName + ":" + IntToString(start) + "-" + IntToString(end)
  }

  /** Where the match starts in the report: the section's content start plus the
    * sentence's start plus the match index, or the match index alone for a section
    * without a position. */
  function AbsoluteStart(section: SD.SectionInfo, sentence: SS.Sentence, m: RegexMatch): int {
    if section.contentStart < 0 then m.index else section.contentStart + sentence.start + m.index
  }

  /** The concept recorded for a match of pattern p in a section, from the match's
    * position in the report and the three verdicts. */
  function MakeConcept(p: CP.ConceptPattern, sectionName: string, start: int, length: nat,
                       negated: bool, uncertain: bool, historical: bool): RadiologyConcept
  {
    Encounter.RadiologyConcept(
      p.normalized,
      if negated then RuledOut else if uncertain then Suspected else Confirmed,
      if negated then Negative else Positive,
      if historical then History else Current,
      MapSourcePriority(sectionName),
      Unclear,
      [SpanText(sectionName, start, start + length)])
  }

  /** The concept recorded for a successful match of pattern p in a sentence of a section. */
  function ConceptAt(o: Oracles, sectionName: string, section: SD.SectionInfo, sentence: SS.Sentence,
                     p: CP.ConceptPattern, m: RegexMatch): RadiologyConcept
  {
    MakeConcept(p, sectionName, AbsoluteStart(section, sentence, m), m.length,
                NegatedAt(o, sentence.text, m), o.uncertain(sentence.text, m.index),
                HistoryScope.Historical(sentence.text, m.index))
  }

  // ---------------------------------------------------------------------
  // What the scan collects, level by level

  function MatchStep(o: Oracles, name: string, section: SD.SectionInfo, sentence: SS.Sentence,
                     p: CP.ConceptPattern): RegexMatch -> seq<RadiologyConcept>
  {
    (m: RegexMatch) => if m.success then [ConceptAt(o, name, section, sentence, p, m)] else []
  }

  /** The concepts of one pattern in one sentence: one per successful match. */
  function PatternConcepts(o: Oracles, name: string, section: SD.SectionInfo, sentence: SS.Sentence,
                           p: CP.ConceptPattern): seq<RadiologyConcept>
  {
    FlatMap(o.matches(p, sentence.text), MatchStep(o, name, section, sentence, p))
  }

  function PatternStep(o: Oracles, name: string, section: SD.SectionInfo, sentence: SS.Sentence)
    : CP.ConceptPattern -> seq<RadiologyConcept>
  {
    (p: CP.ConceptPattern) => PatternConcepts(o, name, section, sentence, p)
  }

  /** The concepts of one sentence: pattern after pattern. */
  function SentenceConcepts(o: Oracles, name: string, section: SD.SectionInfo, sentence: SS.Sentence,
                            patterns: seq<CP.ConceptPattern>): seq<RadiologyConcept>
  {
    FlatMap(patterns, PatternStep(o, name, section, sentence))
  }

  function SentenceStep(o: Oracles, name: string, section: SD.SectionInfo, patterns: seq<CP.ConceptPattern>)
    : SS.Sentence -> seq<RadiologyConcept>
  {
    (s: SS.Sentence) => SentenceConcepts(o, name, section, s, patterns)
  }

  /** The concepts of one section: sentence after sentence, none when it is missing or
    * blank. */
  function SectionConcepts(o: Oracles, sections: map<string, SD.SectionInfo>, patterns: seq<CP.ConceptPattern>,
                           name: string): seq<RadiologyConcept>
  {
    if !SD.HasContent(sections, name) then []
    else FlatMap(SS.Sentences(sections[name].contentText), SentenceStep(o, name, sections[name], patterns))
  }

  function SectionStep(o: Oracles, sections: map<string, SD.SectionInfo>, patterns: seq<CP.ConceptPattern>)
    : string -> seq<RadiologyConcept>
  {
    (name: string) => SectionConcepts(o, sections, patterns, name)
  }

  /** The concepts the scan collects, before relevance is assigned. */
  function Scanned(o: Oracles, sections: map<string, SD.SectionInfo>, patterns: seq<CP.ConceptPattern>)
    : seq<RadiologyConcept>
  {
    FlatMap(ScannedSections, SectionStep(o, sections, patterns))
  }

  // ---------------------------------------------------------------------
  // Relevance

  /** A concept found in the Indication section and not negated. */
  predicate IsIndicationPositive(c: RadiologyConcept) {
    c.sourcePriority == PriorityIndication && c.polarity == Positive
  }

  /** The case-insensitive set of the texts of the non-negated indication concepts. */
  function IndicationTexts(cs: seq<RadiologyConcept>): set<string> {
    set i | 0 <= i < |cs| && IsIndicationPositive(cs[i]) :: Lower(cs[i].text)
  }

  lemma IndicationTextsAppend(cs: seq<RadiologyConcept>, c: RadiologyConcept)
    ensures IndicationTexts(cs + [c]) ==
      IndicationTexts(cs) + if IsIndicationPositive(c) then {Lower(c.text)} else {}
  {
    var t := cs + [c];
    assert forall i :: 0 <= i < |cs| ==> t[i] == cs[i];
    assert t[|cs|] == c;
  }

  /** The relevance pass's decision for one concept. */
  function Relevance(c: RadiologyConcept, indicationConcepts: set<string>, hasIndicationText: bool): string {
    if c.sourcePriority == PriorityIndication then IndicationRelated
    else if indicationConcepts == {} then
      (if hasIndicationText && EqIgnoreCase(c.sourcePriority, PriorityFindings) then Incidental else Unclear)
    else if Lower(c.text) in indicationConcepts then IndicationRelated
    else Incidental
  }

  predicate HasIndicationText(sections: map<string, SD.SectionInfo>) {
    SD.HasContent(sections, SD.Indication)
  }

  /** The concepts with their relevance set, everything else unchanged. */
  function WithRelevance(cs: seq<RadiologyConcept>, hasIndicationText: bool): (r: seq<RadiologyConcept>)
    ensures |r| == |cs|
  {
    var texts := IndicationTexts(cs);
    seq(|cs|, i requires 0 <= i < |cs| => cs[i].(relevance := Relevance(cs[i], texts, hasIndicationText)))
  }

  /** What Extract returns. */
  function Extraction(o: Oracles, sections: map<string, SD.SectionInfo>, patterns: seq<CP.ConceptPattern>)
    : seq<RadiologyConcept>
  {
    WithRelevance(Scanned(o, sections, patterns), HasIndicationText(sections))
  }

  // ---------------------------------------------------------------------
  // The extractor

  /** Extract: the concepts of the scanned sections, in section, sentence, pattern and
    * match order, with their relevance set.  The report text itself is not read. */
  method Extract(o: Oracles, reportText: string, sections: map<string, SD.SectionInfo>,
                 patterns: seq<CP.ConceptPattern>) returns (concepts: seq<RadiologyConcept>)
    ensures concepts == Extraction(o, sections, patterns)
  {
    var found: seq<RadiologyConcept> := [];
    var indicationConcepts: set<string> := {};
    var hasIndicationText := SD.Indication in sections && !IsBlank(sections[SD.Indication].contentText);
    for k := 0 to |ScannedSections|
      invariant found == FlatMapUpTo(ScannedSections, k, SectionStep(o, sections, patterns))
      invariant indicationConcepts == IndicationTexts(found)
    {
      var sectionName := ScannedSections[k];
      ghost var before := found;
      if sectionName !in sections || IsBlank(sections[sectionName].contentText) {
        assert FlatMapUpTo(ScannedSections, k + 1, SectionStep(o, sections, patterns)) == before + [];
        continue;
      }
      var section := sections[sectionName];
      var sentences := SS.Split(section.contentText);
      found, indicationConcepts := ScanSection(o, sectionName, section, sentences, patterns, found, indicationConcepts);
    }
    concepts := AssignRelevance(found, indicationConcepts, hasIndicationText);
  }

  /** Extract's sentence loop over one section. */
  method ScanSection(o: Oracles, name: string, section: SD.SectionInfo, sentences: seq<SS.Sentence>,
                     patterns: seq<CP.ConceptPattern>, found: seq<RadiologyConcept>, indicationConcepts: set<string>)
    returns (found': seq<RadiologyConcept>, indicationConcepts': set<string>)
    requires indicationConcepts == IndicationTexts(found)
    ensures found' == found + FlatMap(sentences, SentenceStep(o, name, section, patterns))
    ensures indicationConcepts' == IndicationTexts(found')
  {
    found', indicationConcepts' := found, indicationConcepts;
    for j := 0 to |sentences|
      invariant found' == found + FlatMapUpTo(sentences, j, SentenceStep(o, name, section, patterns))
      invariant indicationConcepts' == IndicationTexts(found')
    {
      Associative(found, FlatMapUpTo(sentences, j, SentenceStep(o, name, section, patterns)),
                  SentenceConcepts(o, name, section, sentences[j], patterns));
      found', indicationConcepts' := ScanSentence(o, name, section, sentences[j], patterns, found', indicationConcepts');
    }
  }

  /** Extract's pattern loop over one sentence. */
  method ScanSentence(o: Oracles, name: string, section: SD.SectionInfo, sentence: SS.Sentence,
                      patterns: seq<CP.ConceptPattern>, found: seq<RadiologyConcept>, indicationConcepts: set<string>)
    returns (found': seq<RadiologyConcept>, indicationConcepts': set<string>)
    requires indicationConcepts == IndicationTexts(found)
    ensures found' == found + SentenceConcepts(o, name, section, sentence, patterns)
    ensures indicationConcepts' == IndicationTexts(found')
  {
    found', indicationConcepts' := found, indicationConcepts;
    for q := 0 to |patterns|
      invariant found' == found + FlatMapUpTo(patterns, q, PatternStep(o, name, section, sentence))
      invariant indicationConcepts' == IndicationTexts(found')
    {
      Associative(found, FlatMapUpTo(patterns, q, PatternStep(o, name, section, sentence)),
                  PatternConcepts(o, name, section, sentence, patterns[q]));
      found', indicationConcepts' := ScanPattern(o, name, section, sentence, patterns[q], found', indicationConcepts');
    }
  }

  /** Extract's match loop: records a concept for each successful match of the pattern. */
  method ScanPattern(o: Oracles, name: string, section: SD.SectionInfo, sentence: SS.Sentence,
                     p: CP.ConceptPattern, found: seq<RadiologyConcept>, indicationConcepts: set<string>)
    returns (found': seq<RadiologyConcept>, indicationConcepts': set<string>)
    requires indicationConcepts == IndicationTexts(found)
    ensures found' == found + PatternConcepts(o, name, section, sentence, p)
    ensures indicationConcepts' == IndicationTexts(found')
  {
    found', indicationConcepts' := found, indicationConcepts;
    var ms := o.matches(p, sentence.text);
    for t := 0 to |ms|
      invariant found' == found + FlatMapUpTo(ms, t, MatchStep(o, name, section, sentence, p))
      invariant indicationConcepts' == IndicationTexts(found')
    {
      var m := ms[t];
      MatchStepAppend(o, name, section, sentence, p, ms, t);
      Associative(found, FlatMapUpTo(ms, t, MatchStep(o, name, section, sentence, p)),
                  MatchStep(o, name, section, sentence, p)(m));
      if !m.success {
        continue;
      }
      found', indicationConcepts' := RecordMatch(o, name, section, sentence, p, m, found', indicationConcepts');
    }
  }

  /** The body of the match loop for a successful match: classify it, record its concept,
    * and remember its text when it is a non-negated indication concept. */
  method RecordMatch(o: Oracles, name: string, section: SD.SectionInfo, sentence: SS.Sentence,
                     p: CP.ConceptPattern, m: RegexMatch, found: seq<RadiologyConcept>, indicationConcepts: set<string>)
    returns (found': seq<RadiologyConcept>, indicationConcepts': set<string>)
    requires indicationConcepts == IndicationTexts(found)
    ensures found' == found + [ConceptAt(o, name, section, sentence, p, m)]
    ensures indicationConcepts' == IndicationTexts(found')
  {
    var negated := NegationScope.IsNegated(sentence.text, m.index);
    if !negated {
      negated := o.targetNegated(sentence.text, m.value, m.index);
    }
    var uncertain := o.uncertain(sentence.text, m.index);
    var historical := HistoryScope.IsHistorical(sentence.text, m.index);
    var absoluteStart := AbsoluteStart(section, sentence, m);
    var concept := MakeConcept(p, name, absoluteStart, m.length, negated, uncertain, historical);
    assert negated == NegatedAt(o, sentence.text, m);
    ConceptAdded(o, name, section, sentence, p, m, found);
    indicationConcepts' := indicationConcepts;
    if name == SD.Indication && !negated {
      indicationConcepts' := indicationConcepts' + {Lower(p.normalized)};
    }
    found' := found + [concept];
  }

  lemma MatchStepAppend(o: Oracles, name: string, section: SD.SectionInfo, sentence: SS.Sentence,
                        p: CP.ConceptPattern, ms: seq<RegexMatch>, t: nat)
    requires t < |ms|
    ensures FlatMapUpTo(ms, t + 1, MatchStep(o, name, section, sentence, p)) ==
      FlatMapUpTo(ms, t, MatchStep(o, name, section, sentence, p)) +
        if ms[t].success then [ConceptAt(o, name, section, sentence, p, ms[t])] else []
  {
  }

  /** Recording the concept of a match extends the indication texts exactly when it is
    * a non-negated indication concept. */
  lemma ConceptAdded(o: Oracles, name: string, section: SD.SectionInfo, sentence: SS.Sentence,
                     p: CP.ConceptPattern, m: RegexMatch, found: seq<RadiologyConcept>)
    ensures var c := ConceptAt(o, name, section, sentence, p, m);
      IndicationTexts(found + [c]) == IndicationTexts(found) +
        if name == SD.Indication && !NegatedAt(o, sentence.text, m) then {Lower(p.normalized)} else {}
  {
    VerdictNamesDistinct();
    IndicationTextsAppend(found, ConceptAt(o, name, section, sentence, p, m));
  }

  /** The relevance pass: each concept gets the relevance its source and the indication
    * concepts give it. */
  method AssignRelevance(concepts: seq<RadiologyConcept>, indicationConcepts: set<string>, hasIndicationText: bool)
    returns (r: seq<RadiologyConcept>)
    ensures |r| == |concepts|
    ensures forall i :: 0 <= i < |r| ==>
      r[i] == concepts[i].(relevance := Relevance(concepts[i], indicationConcepts, hasIndicationText))
  {
    r := concepts;
    for i := 0 to |r|
      invariant |r| == |concepts|
      invariant forall k :: 0 <= k < i ==>
        r[k] == concepts[k].(relevance := Relevance(concepts[k], indicationConcepts, hasIndicationText))
      invariant forall k :: i <= k < |r| ==> r[k] == concepts[k]
    {
      var concept := r[i];
      if concept.sourcePriority == PriorityIndication {
        r := r[i := concept.(relevance := IndicationRelated)];
        continue;
      }
      if indicationConcepts == {} {
        if hasIndicationText && EqIgnoreCase(concept.sourcePriority, PriorityFindings) {
          r := r[i := concept.(relevance := Incidental)];
        } else {
          r := r[i := concept.(relevance := Unclear)];
        }
      } else if Lower(concept.text) in indicationConcepts {
        r := r[i := concept.(relevance := IndicationRelated)];
      } else {
        r := r[i := concept.(relevance := Incidental)];
      }
    }
  }

  // ---------------------------------------------------------------------
  // Where the concepts come from

  /** c is the concept of a successful match of pattern p in the sentence. */
  predicate FromPattern(o: Oracles, name: string, section: SD.SectionInfo, sentence: SS.Sentence,
                        p: CP.ConceptPattern, c: RadiologyConcept)
  {
    exists m :: m in o.matches(p, sentence.text) && m.success && c == ConceptAt(o, name, section, sentence, p, m)
  }

  /** c is the concept of a successful match of one of the patterns in the sentence. */
  predicate FromSentence(o: Oracles, name: string, section: SD.SectionInfo, sentence: SS.Sentence,
                         patterns: seq<CP.ConceptPattern>, c: RadiologyConcept)
  {
    exists p :: p in patterns && FromPattern(o, name, section, sentence, p, c)
  }

  /** c comes from a sentence of the named section, which is present and not blank. */
  predicate FromSection(o: Oracles, sections: map<string, SD.SectionInfo>, patterns: seq<CP.ConceptPattern>,
                        name: string, c: RadiologyConcept)
  {
    SD.HasContent(sections, name) &&
    exists sentence :: sentence in SS.Sentences(sections[name].contentText) &&
      FromSentence(o, name, sections[name], sentence, patterns, c)
  }

  /** c comes from one of the scanned sections. */
  predicate FromScan(o: Oracles, sections: map<string, SD.SectionInfo>, patterns: seq<CP.ConceptPattern>,
                     c: RadiologyConcept)
  {
    exists name :: name in ScannedSections && FromSection(o, sections, patterns, name, c)
  }

  lemma PatternConceptsMembers(o: Oracles, name: string, section: SD.SectionInfo, sentence: SS.Sentence,
                               p: CP.ConceptPattern, c: RadiologyConcept)
    ensures c in PatternConcepts(o, name, section, sentence, p) <==> FromPattern(o, name, section, sentence, p, c)
  {
    var ms := o.matches(p, sentence.text);
    var f := MatchStep(o, name, section, sentence, p);
    FlatMapUpToMembers(ms, |ms|, f, c);
    if c in PatternConcepts(o, name, section, sentence, p) {
      var i :| 0 <= i < |ms| && c in f(ms[i]);
      assert ms[i] in ms && ms[i].success && c == ConceptAt(o, name, section, sentence, p, ms[i]);
    }
    if FromPattern(o, name, section, sentence, p, c) {
      var m :| m in ms && m.success && c == ConceptAt(o, name, section, sentence, p, m);
      FlatMapHas(ms, f, m, c);
    }
  }

  lemma SentenceConceptsMembers(o: Oracles, name: string, section: SD.SectionInfo, sentence: SS.Sentence,
                                patterns: seq<CP.ConceptPattern>, c: RadiologyConcept)
    ensures c in SentenceConcepts(o, name, section, sentence, patterns) <==>
      FromSentence(o, name, section, sentence, patterns, c)
  {
    var f := PatternStep(o, name, section, sentence);
    FlatMapUpToMembers(patterns, |patterns|, f, c);
    if c in SentenceConcepts(o, name, section, sentence, patterns) {
      var i :| 0 <= i < |patterns| && c in f(patterns[i]);
      PatternConceptsMembers(o, name, section, sentence, patterns[i], c);
      assert patterns[i] in patterns;
    }
    if FromSentence(o, name, section, sentence, patterns, c) {
      var p :| p in patterns && FromPattern(o, name, section, sentence, p, c);
      PatternConceptsMembers(o, name, section, sentence, p, c);
      FlatMapHas(patterns, f, p, c);
    }
  }

  lemma SectionConceptsMembers(o: Oracles, sections: map<string, SD.SectionInfo>, patterns: seq<CP.ConceptPattern>,
                               name: string, c: RadiologyConcept)
    ensures c in SectionConcepts(o, sections, patterns, name) <==> FromSection(o, sections, patterns, name, c)
  {
    if SD.HasContent(sections, name) {
      var section := sections[name];
      var ss := SS.Sentences(section.contentText);
      var f := SentenceStep(o, name, section, patterns);
      FlatMapUpToMembers(ss, |ss|, f, c);
      if c in SectionConcepts(o, sections, patterns, name) {
        var i :| 0 <= i < |ss| && c in f(ss[i]);
        SentenceConceptsMembers(o, name, section, ss[i], patterns, c);
        assert ss[i] in ss;
      }
      if FromSection(o, sections, patterns, name, c) {
        var sentence :| sentence in ss && FromSentence(o, name, section, sentence, patterns, c);
        SentenceConceptsMembers(o, name, section, sentence, patterns, c);
        FlatMapHas(ss, f, sentence, c);
      }
    }
  }

  /** The scan collects exactly the concepts of the successful matches in the scanned
    * sections: a missing or blank section, and every other section, contributes none. */
  lemma ScannedMembers(o: Oracles, sections: map<string, SD.SectionInfo>, patterns: seq<CP.ConceptPattern>,
                       c: RadiologyConcept)
    ensures c in Scanned(o, sections, patterns) <==> FromScan(o, sections, patterns, c)
  {
    var f := SectionStep(o, sections, patterns);
    FlatMapUpToMembers(ScannedSections, |ScannedSections|, f, c);
    if c in Scanned(o, sections, patterns) {
      var k :| 0 <= k < |ScannedSections| && c in f(ScannedSections[k]);
      SectionConceptsMembers(o, sections, patterns, ScannedSections[k], c);
      assert ScannedSections[k] in ScannedSections;
    }
    if FromScan(o, sections, patterns, c) {
      var name :| name in ScannedSections && FromSection(o, sections, patterns, name, c);
      SectionConceptsMembers(o, sections, patterns, name, c);
      FlatMapHas(ScannedSections, f, name, c);
    }
  }

  /** Every scanned concept has the relevance UNCLEAR and the source priority of its section. */
  lemma FromScanConcept(o: Oracles, sections: map<string, SD.SectionInfo>, patterns: seq<CP.ConceptPattern>,
                        name: string, c: RadiologyConcept)
    requires FromSection(o, sections, patterns, name, c)
    ensures c.relevance == Unclear && c.sourcePriority == MapSourcePriority(name)
  {
    var sentence :| sentence in SS.Sentences(sections[name].contentText) &&
      FromSentence(o, name, sections[name], sentence, patterns, c);
    var p :| p in patterns && FromPattern(o, name, sections[name], sentence, p, c);
  }

  /** Extract returns, in the relevance field aside, exactly the concepts of the successful
    * matches in the scanned sections. */
  lemma ExtractionIsScan(o: Oracles, sections: map<string, SD.SectionInfo>, patterns: seq<CP.ConceptPattern>,
                         c: RadiologyConcept)
    ensures (exists i :: 0 <= i < |Extraction(o, sections, patterns)| &&
               Extraction(o, sections, patterns)[i].(relevance := Unclear) == c)
            <==> FromScan(o, sections, patterns, c)
  {
    var cs := Scanned(o, sections, patterns);
    var e := Extraction(o, sections, patterns);
    ScannedMembers(o, sections, patterns, c);
    forall i | 0 <= i < |cs|
      ensures e[i].(relevance := Unclear) == cs[i]
    {
      ScannedUnclear(o, sections, patterns, cs[i]);
    }
  }

  /** The scan leaves every concept's relevance UNCLEAR. */
  lemma ScannedUnclear(o: Oracles, sections: map<string, SD.SectionInfo>, patterns: seq<CP.ConceptPattern>,
                       c: RadiologyConcept)
    requires c in Scanned(o, sections, patterns)
    ensures c.relevance == Unclear
  {
    ScannedMembers(o, sections, patterns, c);
    var name :| name in ScannedSections && FromSection(o, sections, patterns, name, c);
    FromScanConcept(o, sections, patterns, name, c);
  }

  // ---------------------------------------------------------------------
  // Section order

  /** Indication concepts come first, then findings, then impression. */
  function PriorityRank(priority: string): int {
    if priority == PriorityIndication then 0 else if priority == PriorityFindings then 1 else 2
  }

  lemma ScannedBySection(o: Oracles, sections: map<string, SD.SectionInfo>, patterns: seq<CP.ConceptPattern>)
    ensures Scanned(o, sections, patterns) ==
      SectionConcepts(o, sections, patterns, SD.Indication) + SectionConcepts(o, sections, patterns, SD.Findings) +
      SectionConcepts(o, sections, patterns, SD.Impression)
  {
    var f := SectionStep(o, sections, patterns);
    assert FlatMapUpTo(ScannedSections, 1, f) == f(SD.Indication);
    assert FlatMapUpTo(ScannedSections, 2, f) == f(SD.Indication) + f(SD.Findings);
    assert FlatMapUpTo(ScannedSections, 3, f) == f(SD.Indication) + f(SD.Findings) + f(SD.Impression);
  }

  lemma SectionPriority(o: Oracles, sections: map<string, SD.SectionInfo>, patterns: seq<CP.ConceptPattern>,
                        name: string, c: RadiologyConcept)
    requires c in SectionConcepts(o, sections, patterns, name)
    ensures c.sourcePriority == MapSourcePriority(name)
  {
    SectionConceptsMembers(o, sections, patterns, name, c);
    FromScanConcept(o, sections, patterns, name, c);
  }

  /** The rank of the i-th scanned concept is that of the section block it falls in. */
  lemma RankAt(o: Oracles, sections: map<string, SD.SectionInfo>, patterns: seq<CP.ConceptPattern>, i: nat)
    requires i < |Scanned(o, sections, patterns)|
    ensures var a := |SectionConcepts(o, sections, patterns, SD.Indication)|;
      var b := |SectionConcepts(o, sections, patterns, SD.Findings)|;
      PriorityRank(Scanned(o, sections, patterns)[i].sourcePriority) == if i < a then 0 else if i < a + b then 1 else 2
  {
    var ind := SectionConcepts(o, sections, patterns, SD.Indication);
    var fin := SectionConcepts(o, sections, patterns, SD.Findings);
    var imp := SectionConcepts(o, sections, patterns, SD.Impression);
    ScannedBySection(o, sections, patterns);
    PrioritiesDistinct();
    var cs := Scanned(o, sections, patterns);
    if i < |ind| {
      assert cs[i] == ind[i];
      SectionPriority(o, sections, patterns, SD.Indication, ind[i]);
    } else if i < |ind| + |fin| {
      assert cs[i] == fin[i - |ind|];
      SectionPriority(o, sections, patterns, SD.Findings, fin[i - |ind|]);
    } else {
      assert cs[i] == imp[i - |ind| - |fin|];
      SectionPriority(o, sections, patterns, SD.Impression, imp[i - |ind| - |fin|]);
    }
  }

  /** Extract lists the Indication concepts first, then the Findings concepts, then the
    * Impression concepts. */
  lemma ExtractionInSectionOrder(o: Oracles, sections: map<string, SD.SectionInfo>, patterns: seq<CP.ConceptPattern>,
                                 i: nat, j: nat)
    requires i < j < |Extraction(o, sections, patterns)|
    ensures var e := Extraction(o, sections, patterns);
      PriorityRank(e[i].sourcePriority) <= PriorityRank(e[j].sourcePriority)
  {
    RankAt(o, sections, patterns, i);
    RankAt(o, sections, patterns, j);
  }

  // ---------------------------------------------------------------------
  // What a concept records

  /** A concept is RULED_OUT and NEGATIVE exactly when its match is negated, SUSPECTED
    * when it is not negated but uncertain, otherwise CONFIRMED; HISTORY exactly when the
    * match is historical; it names the pattern's normalized text and carries one span. */
  lemma ConceptVerdicts(o: Oracles, name: string, section: SD.SectionInfo, sentence: SS.Sentence,
                        p: CP.ConceptPattern, m: RegexMatch)
    ensures var c := ConceptAt(o, name, section, sentence, p, m);
      var negated := NegatedAt(o, sentence.text, m);
      var uncertain := o.uncertain(sentence.text, m.index);
      (c.certainty == RuledOut <==> negated) &&
      (c.certainty == Suspected <==> !negated && uncertain) &&
      (c.certainty == Confirmed <==> !negated && !uncertain) &&
      (c.polarity == Negative <==> negated) && (c.polarity == Positive <==> !negated) &&
      (c.temporality == History <==> HistoryScope.Historical(sentence.text, m.index)) &&
      (c.temporality == Current <==> !HistoryScope.Historical(sentence.text, m.index)) &&
      (IsIndicationPositive(c) <==> name == SD.Indication && !negated) &&
      c.text == p.normalized && c.relevance == Unclear && |c.evidenceSpans| == 1
  {
    VerdictNamesDistinct();
  }

  /** A match straight after a sentence-opening "No " is RULED_OUT and NEGATIVE, whatever
    * the other resolvers say: "No pneumothorax." and "No bowel obstruction." in the
    * extraction pipeline's reports. */
  lemma LeadingNoRuledOut(o: Oracles, name: string, section: SD.SectionInfo, sentence: SS.Sentence,
                          p: CP.ConceptPattern, m: RegexMatch)
    requires |sentence.text| > 3 && (sentence.text[0] == 'N' || sentence.text[0] == 'n')
    requires (sentence.text[1] == 'O' || sentence.text[1] == 'o') && sentence.text[2] == ' '
    requires m.index == 3
    ensures ConceptAt(o, name, section, sentence, p, m).certainty == RuledOut
    ensures ConceptAt(o, name, section, sentence, p, m).polarity == Negative
  {
    NegationScope.LeadingNoNegates(sentence.text);
    ConceptVerdicts(o, name, section, sentence, p, m);
  }

  /** The evidence span of a concept parses back, with the claim builder's span parser, to
    * its section and its start and end in the report. */
  lemma EvidenceSpanParses(p: CP.ConceptPattern, name: string, start: int, length: nat,
                           negated: bool, uncertain: bool, historical: bool)
    requires name in ScannedSections
    requires 0 <= start && IsInt32(start) && IsInt32(start + length)
    ensures ClaimContextBuilder.TryParseSpan(MakeConcept(p, name, start, length, negated, uncertain, historical).evidenceSpans[0]) ==
      Some(ClaimContextBuilder.Span(name, start, start + length))
  {
    var span := SpanText(name, start, start + length);
    assert ClaimContextBuilder.TryParseSpan(span) == Some(ClaimContextBuilder.Span(name, start, start + length)) by {
      ScannedNamesWithoutColon(name);
      ClaimContextBuilder.TryParseSpanOfFormatted(name, start, start + length);
    }
    assert MakeConcept(p, name, start, length, negated, uncertain, historical).evidenceSpans == [span];
  }

  lemma ScannedNamesWithoutColon(name: string)
    requires name in ScannedSections
    ensures ':' !in name
  {
    if name == SD.Indication {
      assert forall i :: 0 <= i < |SD.Indication| ==> SD.Indication[i] != ':';
    } else if name == SD.Findings {
      assert forall i :: 0 <= i < |SD.Findings| ==> SD.Findings[i] != ':';
    } else {
      assert forall i :: 0 <= i < |SD.Impression| ==> SD.Impression[i] != ':';
    }
  }

  // ---------------------------------------------------------------------
  // Relevance

  /** No scanned concept is a non-negated indication concept. */
  predicate NoIndicationConcept(cs: seq<RadiologyConcept>) {
    forall j :: 0 <= j < |cs| ==> !IsIndicationPositive(cs[j])
  }

  lemma IndicationTextsEmpty(cs: seq<RadiologyConcept>)
    ensures IndicationTexts(cs) == {} <==> NoIndicationConcept(cs)
  {
    if !NoIndicationConcept(cs) {
      var j :| 0 <= j < |cs| && IsIndicationPositive(cs[j]);
      assert Lower(cs[j].text) in IndicationTexts(cs);
    }
  }

  lemma RelevanceNamesDistinct()
    ensures IndicationRelated != Incidental && IndicationRelated != Unclear && Incidental != Unclear
  {
    assert IndicationRelated[2] != Incidental[2];
    assert |Incidental| == 10 && |Unclear| == 7;
  }

  /** A scanned concept's source priority is one of the three, and compares equal to
    * FINDINGS ignoring case only when it is FINDINGS. */
  lemma ScannedPriority(o: Oracles, sections: map<string, SD.SectionInfo>, patterns: seq<CP.ConceptPattern>,
                        c: RadiologyConcept)
    requires c in Scanned(o, sections, patterns)
    ensures c.sourcePriority in {PriorityIndication, PriorityFindings, PriorityImpression}
    ensures EqIgnoreCase(c.sourcePriority, PriorityFindings) <==> c.sourcePriority == PriorityFindings
  {
    ScannedMembers(o, sections, patterns, c);
    var name :| name in ScannedSections && FromSection(o, sections, patterns, name, c);
    FromScanConcept(o, sections, patterns, name, c);
    if c.sourcePriority != PriorityFindings {
      PrioritiesDistinct();
      assert |Lower(c.sourcePriority)| != |Lower(PriorityFindings)|;
    }
  }

  /** The relevance of each extracted concept: INDICATION_RELATED for an Indication
    * concept; when no Indication concept is left un-negated, INCIDENTAL for a Findings
    * concept of a report with indication text and UNCLEAR otherwise; else
    * INDICATION_RELATED exactly when some un-negated Indication concept has the same text
    * up to case, and INCIDENTAL when none has. */
  lemma ExtractionRelevance(o: Oracles, sections: map<string, SD.SectionInfo>, patterns: seq<CP.ConceptPattern>,
                            i: nat)
    requires i < |Extraction(o, sections, patterns)|
    ensures var cs := Scanned(o, sections, patterns);
      var r := Extraction(o, sections, patterns)[i].relevance;
      (cs[i].sourcePriority == PriorityIndication ==> r == IndicationRelated) &&
      (cs[i].sourcePriority != PriorityIndication && NoIndicationConcept(cs) ==>
         r == if HasIndicationText(sections) && cs[i].sourcePriority == PriorityFindings then Incidental else Unclear) &&
      (cs[i].sourcePriority != PriorityIndication && !NoIndicationConcept(cs) ==>
         (r == IndicationRelated <==>
            exists j :: 0 <= j < |cs| && IsIndicationPositive(cs[j]) && EqIgnoreCase(cs[j].text, cs[i].text)) &&
         (r == IndicationRelated || r == Incidental))
  {
    var cs := Scanned(o, sections, patterns);
    IndicationTextsEmpty(cs);
    RelevanceNamesDistinct();
    ScannedPriority(o, sections, patterns, cs[i]);
  }

  // ---------------------------------------------------------------------
  // Which sections matter

  /** Sections other than Indication, Findings and Impression do not affect the result. */
  lemma OnlyScannedSectionsMatter(o: Oracles, s1: map<string, SD.SectionInfo>, s2: map<string, SD.SectionInfo>,
                                  patterns: seq<CP.ConceptPattern>)
    requires forall name :: name in ScannedSections ==> (name in s1 <==> name in s2) && (name in s1 ==> s1[name] == s2[name])
    ensures Extraction(o, s1, patterns) == Extraction(o, s2, patterns)
  {
    forall k | 0 <= k < |ScannedSections|
      ensures SectionStep(o, s1, patterns)(ScannedSections[k]) == SectionStep(o, s2, patterns)(ScannedSections[k])
    {
      assert ScannedSections[k] in ScannedSections;
    }
    FlatMapUpToCongruent(ScannedSections, |ScannedSections|, SectionStep(o, s1, patterns), SectionStep(o, s2, patterns));
    assert SD.Indication in ScannedSections;
  }

  /** Without a present, non-blank Indication, Findings or Impression section there are no
    * concepts. */
  lemma NothingToScan(o: Oracles, sections: map<string, SD.SectionInfo>, patterns: seq<CP.ConceptPattern>)
    requires forall name :: name in ScannedSections ==> !SD.HasContent(sections, name)
    ensures Extraction(o, sections, patterns) == []
  {
    forall k | 0 <= k < |ScannedSections|
      ensures SectionStep(o, sections, patterns)(ScannedSections[k]) == []
    {
      assert ScannedSections[k] in ScannedSections;
    }
    FlatMapUpToEmpty(ScannedSections, |ScannedSections|, SectionStep(o, sections, patterns));
  }
}
