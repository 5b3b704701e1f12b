/** Assembly of the claim the rules engine evaluates from an extracted encounter and
  * its CPT and ICD coding results; evidence snippets are cut out of the report or its
  * sections by "section:start-end" spans. */
module ClaimContextBuilder {
  import opened Text
  import opened Sequences
  import opened RulesModel
  import opened Encounter
  import RulesEngine

  // ---------------------------------------------------------------------
  // Evidence spans

  /** A parsed "section:start-end" span. */
  datatype Span = Span(section: string, start: int, end: int)

  /** TryParseSpan: the text before the first ':' is the section, and the rest must split
    * at its first '-' into two 32-bit integers. */
  function TryParseSpan(span: string): (r: Option<Span>)
    ensures r.Some? ==> IsInt32(r.value.start) && IsInt32(r.value.end)
  {
    match SplitFirst(span, ':')
    case None => None
    case Some((section, range)) =>
      match SplitFirst(range, '-')
      case None => None
      case Some((first, second)) =>
        match (ParseInt(first), ParseInt(second))
        case (Some(start), Some(end)) => Some(Span(section, start, end))
        case _ => None
  }

  /** A span parses exactly when it is a section without ':', a ':', an integer text
    * without '-', a '-' and an integer text. */
  lemma TryParseSpanOf(section: string, first: string, second: string)
    requires ':' !in section && '-' !in first
    ensures TryParseSpan(section + ":" + first + "-" + second) ==
      if ParseInt(first).Some? && ParseInt(second).Some?
      then Some(Span(section, ParseInt(first).value, ParseInt(second).value))
      else None
  {
    var range := first + "-" + second;
    assert section + ":" + first + "-" + second == section + [':'] + range;
    SplitFirstOf(section, ':', range);
    SplitFirstOf(first, '-', second);
  }

  /** The spans the concept extractor writes, "{section}:{start}-{end}" with a
    * non-negative start, parse back to their parts. */
  lemma TryParseSpanOfFormatted(section: string, start: int, end: int)
    requires ':' !in section && 0 <= start && IsInt32(start) && IsInt32(end)
    ensures TryParseSpan(section + ":" + IntToString(start) + "-" + IntToString(end)) == Some(Span(section, start, end))
  {
    var first := IntToString(start);
    assert '-' !in first by {
      assert first == Digits(start);
    }
    ParseIntOfIntToString(start);
    ParseIntOfIntToString(end);
    TryParseSpanOf(section, first, IntToString(end));
  }

  /** SafeSnippet: the trimmed text between start and end (clamped to the content), or
    * nothing for blank content or a range that is empty or starts outside it. */
  function SafeSnippet(content: string, start: int, end: int): (r: string)
    ensures IsBlank(content) || start < 0 || end <= start || start >= |content| ==> r == ""
    ensures !(IsBlank(content) || start < 0 || end <= start || start >= |content|) ==>
      r == Trim(content[start..if end > |content| then |content| else end])
    ensures |r| <= if end > start then end - start else 0
  {
    if IsBlank(content) || start < 0 || end <= start then ""
    else if start >= |content| then ""
    else
      var stop := if end > |content| then |content| else end;
      Trim(content[start..stop])
  }

  /** A snippet is a piece of the content. */
  lemma SafeSnippetInside(content: string, start: int, end: int)
    ensures exists a :: PieceAt(content, SafeSnippet(content, start, end), a)
  {
    var r := SafeSnippet(content, start, end);
    if r == [] {
      assert PieceAt(content, r, 0);
    } else {
      var stop := if end > |content| then |content| else end;
      var piece := content[start..stop];
      assert r == Trim(piece);
      var a :| TrimmedAt(piece, r, a);
      assert 0 <= start + a && start + a + |r| <= |content|;
      assert forall k :: 0 <= k < |r| ==> r[k] == piece[a + k] == content[start + a + k];
      assert content[start + a..start + a + |r|] == r;
      assert PieceAt(content, r, start + a);
    }
  }

  /** r occurs in content at position a. */
  predicate PieceAt(content: string, r: string, a: int) {
    0 <= a && a + |r| <= |content| && content[a..a + |r|] == r
  }

  /** The most characters LimitSnippet keeps. */
  const SnippetLimit := 200

  /** LimitSnippet: the trimmed content, cut to its first 200 characters. */
  function LimitSnippet(content: string): (r: string)
    ensures |r| <= SnippetLimit && |r| <= |Trim(content)|
    ensures r == Trim(content)[..|r|]
    ensures |Trim(content)| <= SnippetLimit ==> r == Trim(content)
    ensures IsBlank(content) <==> r == ""
  {
    if IsBlank(content) then ""
    else TakeAtMost(Trim(content), SnippetLimit)
  }

  /** ExtractSnippet: the text an evidence span points at. A blank span gives nothing
    * and a span that does not parse is its own snippet. A parsed range is cut from the
    * report text when it fits there, else from the named section when it fits there,
    * else the whole section, else the whole report (both limited to 200 characters),
    * else the span itself. */
  function ExtractSnippet(e: ExtractedEncounter, span: string): string {
    if IsBlank(span) then ""
    else match TryParseSpan(span)
      case None => span
      case Some(Span(section, start, end)) =>
        if !IsBlank(e.reportText) && start >= 0 && end <= |e.reportText| then
          SafeSnippet(e.reportText, start, end)
        else if section in e.sections then
          var content := e.sections[section];
          if start >= 0 && end <= |content| then SafeSnippet(content, start, end)
          else LimitSnippet(content)
        else if !IsBlank(e.reportText) then LimitSnippet(e.reportText)
        else span
  }

  /** A non-blank span that does not parse is kept as its own snippet. */
  lemma UnparsedSpanIsItsOwnSnippet(e: ExtractedEncounter, span: string)
    requires !IsBlank(span) && TryParseSpan(span).None?
    ensures ExtractSnippet(e, span) == span
  {
  }

  /** A snippet taken from the report or a section never exceeds the range or the limit:
    * it is at most 200 characters, or the range length, or it is the span itself. */
  lemma ExtractSnippetBounded(e: ExtractedEncounter, span: string)
    ensures var r := ExtractSnippet(e, span);
      r == span || |r| <= SnippetLimit
      || (TryParseSpan(span).Some? && |r| <= TryParseSpan(span).value.end - TryParseSpan(span).value.start)
  {
  }

  // ---------------------------------------------------------------------
  // Evidence: the span groups in a fixed order, numbered "EVID-0000", "EVID-0001", ...

  /** The evidence source names with their span lists, in the order BuildEvidence visits
    * them. */
  function EvidenceGroups(e: ExtractedEncounter): seq<(string, seq<string>)> {
    [("Indication", e.indicationEvidenceSpans),
     ("Modality", e.modalityEvidenceSpans),
     ("BodyRegion", e.bodyRegionEvidenceSpans),
     ("Contrast", e.contrastEvidenceSpans),
     ("ViewsOrCompleteness", e.viewsOrCompletenessEvidenceSpans),
     ("Laterality", e.lateralityEvidenceSpans),
     ("Guidance", e.guidanceEvidenceSpans),
     ("Intervention", e.interventionEvidenceSpans)]
  }

  /** Each span of a group with the group's source name. */
  function Tagged(g: (string, seq<string>)): (r: seq<(string, string)>)
    ensures |r| == |g.1|
    ensures forall i :: 0 <= i < |g.1| ==> r[i] == (g.0, g.1[i])
  {
    seq(|g.1|, i requires 0 <= i < |g.1| => (g.0, g.1[i]))
  }

  /** Every (source, span) pair of the encounter in visiting order. */
  function EvidenceEntries(e: ExtractedEncounter): seq<(string, string)> {
    FlatMap(EvidenceGroups(e), Tagged)
  }

  /** The identifier of the i-th evidence entry, "EVID-{i:D4}". */
  function EvidenceId(i: nat): string {
    "EVID-" + PadD4(i)
  }

  /** The evidence entries numbered from 0. */
  function Numbered(e: ExtractedEncounter, entries: seq<(string, string)>): (r: seq<SupportingEvidence>)
    ensures |r| == |entries|
    ensures forall i :: 0 <= i < |entries| ==>
      r[i] == SupportingEvidence(EvidenceId(i), entries[i].0, ExtractSnippet(e, entries[i].1))
  {
    seq(|entries|, i requires 0 <= i < |entries| =>
      SupportingEvidence(EvidenceId(i), entries[i].0, ExtractSnippet(e, entries[i].1)))
  }

  /** The evidence of a built claim. */
  function EvidenceOf(e: ExtractedEncounter): seq<SupportingEvidence> {
    Numbered(e, EvidenceEntries(e))
  }

  /** Distinct entries get distinct identifiers. */
  lemma EvidenceIdsDistinct(i: nat, j: nat)
    requires i != j
    ensures EvidenceId(i) != EvidenceId(j)
  {
    PadD4Value(i);
    PadD4Value(j);
    assert EvidenceId(i)[5..] == PadD4(i);
    assert EvidenceId(j)[5..] == PadD4(j);
  }

  /** The identifiers of a claim's evidence are pairwise distinct. */
  lemma EvidenceOfIdsDistinct(e: ExtractedEncounter)
    ensures forall i, j :: 0 <= i < j < |EvidenceOf(e)| ==> EvidenceOf(e)[i].evidenceId != EvidenceOf(e)[j].evidenceId
  {
    forall i, j | 0 <= i < j < |EvidenceOf(e)|
      ensures EvidenceOf(e)[i].evidenceId != EvidenceOf(e)[j].evidenceId
    {
      EvidenceIdsDistinct(i, j);
    }
  }

  /** The indication spans come first, each with its own snippet. */
  lemma IndicationEvidenceFirst(e: ExtractedEncounter, i: nat)
    requires i < |e.indicationEvidenceSpans|
    ensures i < |EvidenceOf(e)|
    ensures EvidenceOf(e)[i] ==
      SupportingEvidence(EvidenceId(i), "Indication", ExtractSnippet(e, e.indicationEvidenceSpans[i]))
  {
    var groups := EvidenceGroups(e);
    FlatMapPrefix(groups, |groups|, Tagged);
  }

  /** BuildEvidence: the eight span groups in order, with a running index. */
  method BuildEvidence(e: ExtractedEncounter) returns (evidence: seq<SupportingEvidence>)
    ensures evidence == EvidenceOf(e)
  {
    var groups := EvidenceGroups(e);
    var index := 0;
    evidence := [];
    ghost var visited: seq<(string, string)> := [];
    for g := 0 to |groups|
      invariant visited == FlatMapUpTo(groups, g, Tagged)
      invariant evidence == Numbered(e, visited) && index == |visited|
    {
      evidence, index := AddGroup(e, evidence, index, groups[g].0, groups[g].1, visited);
      visited := visited + Tagged(groups[g]);
    }
  }

  /** One of the eight foreach loops of BuildEvidence. */
  method AddGroup(e: ExtractedEncounter, evidence: seq<SupportingEvidence>, index: nat,
                  source: string, spans: seq<string>, ghost visited: seq<(string, string)>)
    returns (evidence': seq<SupportingEvidence>, index': nat)
    requires evidence == Numbered(e, visited) && index == |visited|
    ensures evidence' == Numbered(e, visited + Tagged((source, spans)))
    ensures index' == |evidence'|
  {
    evidence', index' := evidence, index;
    for j := 0 to |spans|
      invariant evidence' == Numbered(e, visited + Tagged((source, spans))[..j])
      invariant index' == |visited| + j
    {
      var item := SupportingEvidence(EvidenceId(index'), source, ExtractSnippet(e, spans[j]));
      ghost var done := visited + Tagged((source, spans))[..j];
      assert visited + Tagged((source, spans))[..j + 1] == done + [(source, spans[j])];
      NumberedAppend(e, done, (source, spans[j]));
      evidence' := evidence' + [item];
      index' := index' + 1;
    }
    assert Tagged((source, spans))[..|spans|] == Tagged((source, spans));
  }

  lemma NumberedAppend(e: ExtractedEncounter, entries: seq<(string, string)>, x: (string, string))
    ensures Numbered(e, entries + [x]) ==
      Numbered(e, entries) + [SupportingEvidence(EvidenceId(|entries|), x.0, ExtractSnippet(e, x.1))]
  {
  }

  // ---------------------------------------------------------------------
  // Procedures, diagnoses and the claim

  /** One procedure per primary CPT, then one per add-on, each a single unit with the
    * selection's modifiers and the encounter's laterality. */
  function BuildProcedures(cpt: CptCodingResult, e: ExtractedEncounter): (r: seq<Procedure>)
    ensures |r| == |cpt.primaryCpts| + |cpt.addOnCpts|
    ensures forall i :: 0 <= i < |r| ==> r[i].units == 1 && r[i].laterality == e.laterality
    ensures forall i :: 0 <= i < |cpt.primaryCpts| ==>
      r[i].code == cpt.primaryCpts[i].code && r[i].modifiers == cpt.primaryCpts[i].modifiers
    ensures forall i :: 0 <= i < |cpt.addOnCpts| ==>
      r[|cpt.primaryCpts| + i].code == cpt.addOnCpts[i].code
      && r[|cpt.primaryCpts| + i].modifiers == cpt.addOnCpts[i].modifiers
  {
    var selections := cpt.primaryCpts + cpt.addOnCpts;
    seq(|selections|, i requires 0 <= i < |selections| =>
      Procedure(selections[i].code, 1, selections[i].modifiers, e.laterality))
  }

  /** The final primary ICD as the principal diagnosis, when there is one, then the
    * secondary candidates in order. */
  function BuildDiagnoses(icd: RadiologyIcdCodingResult): (r: seq<Diagnosis>)
    ensures |r| == (if icd.primaryIcd.Some? then 1 else 0) + |icd.secondaryCandidates|
    ensures icd.primaryIcd.Some? ==> r[0] == Diagnosis(icd.primaryIcd.value.code, true)
    ensures forall i :: 0 <= i < |r| && r[i].isPrincipal ==> i == 0 && icd.primaryIcd.Some?
    ensures var k := if icd.primaryIcd.Some? then 1 else 0;
      forall i :: 0 <= i < |icd.secondaryCandidates| ==> r[k + i] == Diagnosis(icd.secondaryCandidates[i].code, false)
  {
    var principal := if icd.primaryIcd.Some? then [Diagnosis(icd.primaryIcd.value.code, true)] else [];
    principal + seq(|icd.secondaryCandidates|, i requires 0 <= i < |icd.secondaryCandidates| =>
      Diagnosis(icd.secondaryCandidates[i].code, false))
  }

  /** The claim header: the payer, or "DEFAULT" when it is blank, the PlaceOfService
    * section, or empty, and the date of service; every other field keeps its empty
    * initializer. */
  function HeaderOf(e: ExtractedEncounter): (h: ClaimHeader)
    ensures h.payerId == if IsBlank(e.payerId) then "DEFAULT" else e.payerId
    ensures h.placeOfService == if "PlaceOfService" in e.sections then e.sections["PlaceOfService"] else ""
    ensures h.dateOfService == e.dateOfService
    ensures h.renderingProviderNpi == "" && h.billingProviderNpi == ""
  {
    ClaimHeader(if IsBlank(e.payerId) then "DEFAULT" else e.payerId, "", "",
                if "PlaceOfService" in e.sections then e.sections["PlaceOfService"] else "",
                e.dateOfService, "", "", "", "")
  }

  /** Build: the header, then the procedures, diagnoses and evidence appended to the
    * claim's empty lists. The patient keeps its empty initializer. */
  method Build(e: ExtractedEncounter, cpt: CptCodingResult, icd: RadiologyIcdCodingResult) returns (claim: Claim)
    ensures claim.header == HeaderOf(e) && claim.patient == Patient("", None)
    ensures claim.procedures == BuildProcedures(cpt, e)
    ensures claim.diagnoses == BuildDiagnoses(icd)
    ensures claim.evidence == EvidenceOf(e)
  {
    claim := Claim(HeaderOf(e), Patient("", None), [], [], []);
    claim := claim.(procedures := claim.procedures + BuildProcedures(cpt, e));
    claim := claim.(diagnoses := claim.diagnoses + BuildDiagnoses(icd));
    var evidence := BuildEvidence(e);
    claim := claim.(evidence := claim.evidence + evidence);
  }

  /** What the engine's preflight makes of a built claim: the payer is never missing,
    * while the rendering and billing NPIs, which the builder does not fill, always are. */
  lemma BuiltClaimPreflight(e: ExtractedEncounter, claim: Claim)
    requires claim.header == HeaderOf(e)
    ensures !RulesEngine.HasRuleId(RulesEngine.Preflight(claim), RulesEngine.MissingPayer)
    ensures RulesEngine.HasRuleId(RulesEngine.Preflight(claim), RulesEngine.MissingRenderingNpi)
    ensures RulesEngine.HasRuleId(RulesEngine.Preflight(claim), RulesEngine.MissingBillingNpi)
    ensures RulesEngine.HasRuleId(RulesEngine.Preflight(claim), RulesEngine.MissingPos) <==>
      !("PlaceOfService" in e.sections && !IsBlank(e.sections["PlaceOfService"]))
  {
    RulesEngine.PreflightHeaderFlags(claim);
    assert "DEFAULT"[0] == 'D';
  }

  // ---------------------------------------------------------------------
  // Scenarios

  /** The encounter's only evidence span is span, in the g-th group. */
  predicate OnlySpan(e: ExtractedEncounter, g: nat, span: string) {
    g < 8 && EvidenceGroups(e)[g].1 == [span]
    && forall k :: 0 <= k < 8 && k != g ==> EvidenceGroups(e)[k].1 == []
  }

  /** A single span gives a single evidence entry "EVID-0000" from its group. */
  lemma OnlySpanEvidence(e: ExtractedEncounter, g: nat, span: string)
    requires OnlySpan(e, g, span)
    ensures EvidenceOf(e) == [SupportingEvidence("EVID-0000", EvidenceGroups(e)[g].0, ExtractSnippet(e, span))]
  {
    var groups := EvidenceGroups(e);
    FlatMapSingle(groups, |groups|, Tagged, g);
    assert EvidenceEntries(e) == [(groups[g].0, span)];
    assert Digits(0) == "0" && Zeros(3) == "000";
    assert EvidenceId(0) == "EVID-0000";
  }

  /** Build_ExtractsEvidenceSnippetsFromSections: an indication span over the whole
    * report "Pain" gives "Pain". */
  lemma SnippetFromSections(e: ExtractedEncounter)
    requires e.reportText == "Pain" && e.sections == map["Indication" := "Pain"]
    requires OnlySpan(e, 0, "Indication:0-4")
    ensures EvidenceOf(e) == [SupportingEvidence("EVID-0000", "Indication", "Pain")]
  {
    OnlySpanEvidence(e, 0, "Indication:0-4");
    PainSnippet(e);
    GroupNames(e);
  }

  /** Build_ExtractsSnippetFromReportSpan: "Report:2-6" over the report "0123456789"
    * gives "2345". */
  lemma SnippetFromReportSpan(e: ExtractedEncounter)
    requires e.reportText == "0123456789"
    requires OnlySpan(e, 1, "Report:2-6")
    ensures EvidenceOf(e) == [SupportingEvidence("EVID-0000", "Modality", "2345")]
  {
    OnlySpanEvidence(e, 1, "Report:2-6");
    DigitsSnippet(e);
    GroupNames(e);
  }

  /** Build_FallsBackToSpanWhenSectionUnavailable: with no report text and no section of
    * that name, the span itself is the snippet. */
  lemma SnippetFallsBackToSpan(e: ExtractedEncounter)
    requires e.reportText == "" && e.sections == map[]
    requires OnlySpan(e, 1, "Report:10-20")
    ensures EvidenceOf(e) == [SupportingEvidence("EVID-0000", "Modality", "Report:10-20")]
  {
    OnlySpanEvidence(e, 1, "Report:10-20");
    FallbackSnippet(e);
    GroupNames(e);
  }

  lemma GroupNames(e: ExtractedEncounter)
    ensures EvidenceGroups(e)[0].0 == "Indication" && EvidenceGroups(e)[1].0 == "Modality"
  {
  }

  lemma PainSnippet(e: ExtractedEncounter)
    requires e.reportText == "Pain"
    ensures ExtractSnippet(e, "Indication:0-4") == "Pain"
  {
    IndicationSpanParses();
    PainSafeSnippet();
  }

  lemma DigitsSnippet(e: ExtractedEncounter)
    requires e.reportText == "0123456789"
    ensures ExtractSnippet(e, "Report:2-6") == "2345"
  {
    ReportSpanParses();
    DigitsSafeSnippet();
  }

  lemma FallbackSnippet(e: ExtractedEncounter)
    requires e.reportText == "" && e.sections == map[]
    ensures ExtractSnippet(e, "Report:10-20") == "Report:10-20"
  {
    LongSpanParses();
    assert IsBlank(e.reportText) && "Report" !in e.sections;
  }

  lemma IndicationSpanParses()
    ensures !IsBlank("Indication:0-4")
    ensures TryParseSpan("Indication:0-4") == Some(Span("Indication", 0, 4))
  {
    assert !IsWhiteSpace("Indication:0-4"[0]);
    SmallNumberParses(0);
    SmallNumberParses(4);
    assert "Indication:0-4" == "Indication" + ":" + "0" + "-" + "4";
    TryParseSpanOf("Indication", "0", "4");
  }

  lemma ReportSpanParses()
    ensures !IsBlank("Report:2-6")
    ensures TryParseSpan("Report:2-6") == Some(Span("Report", 2, 6))
  {
    assert !IsWhiteSpace("Report:2-6"[0]);
    SmallNumberParses(2);
    SmallNumberParses(6);
    assert "Report:2-6" == "Report" + ":" + "2" + "-" + "6";
    TryParseSpanOf("Report", "2", "6");
  }

  lemma LongSpanParses()
    ensures !IsBlank("Report:10-20")
    ensures TryParseSpan("Report:10-20") == Some(Span("Report", 10, 20))
  {
    assert !IsWhiteSpace("Report:10-20"[0]);
    SmallNumberParses(10);
    SmallNumberParses(20);
    assert "Report:10-20" == "Report" + ":" + "10" + "-" + "20";
    TryParseSpanOf("Report", "10", "20");
  }

  lemma PainSafeSnippet()
    ensures !IsBlank("Pain") && SafeSnippet("Pain", 0, 4) == "Pain"
  {
    assert !IsWhiteSpace("Pain"[0]);
    assert "Pain"[0..4] == "Pain";
    TrimOfTrimmed("Pain");
  }

  lemma DigitsSafeSnippet()
    ensures !IsBlank("0123456789") && SafeSnippet("0123456789", 2, 6) == "2345"
  {
    assert !IsWhiteSpace("0123456789"[0]);
    assert "0123456789"[2..6] == "2345";
    TrimOfTrimmed("2345");
  }

  /** The decimal text of a number below 100 parses back to it. */
  lemma SmallNumberParses(n: nat)
    requires n < 100
    ensures ParseInt(if n < 10 then [DigitChar(n)] else [DigitChar(n / 10), DigitChar(n % 10)]) == Some(n)
  {
    if n >= 10 {
      assert Digits(n / 10) == [DigitChar(n / 10)];
      assert Digits(n) == [DigitChar(n / 10), DigitChar(n % 10)];
    }
    ParseIntOfIntToString(n);
  }
}
