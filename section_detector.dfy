/** The section detector: finds the report's headings, maps each to its canonical section
  * (Indication, Technique, Findings or Impression), and gives every section the text up to
  * the next heading.  The heading regular expression is not modelled: its matches, in the
  * order it returns them, are the input. */
module SectionDetector {
  import opened Text
  import opened Sequences

  /** One match of the heading expression: where it starts, the heading group's text, and
    * the position and text of the rest of the heading line. */
  datatype HeadingMatch = HeadingMatch(index: nat, heading: string, restIndex: nat, rest: string)

  /** A recognised heading: its canonical section, where the heading starts and where the
    * section's content starts. */
  datatype Heading = Heading(canonical: string, headingStart: nat, contentStart: nat)

  /** SectionInfo: Name, ContentStart, ContentEnd and ContentText. */
  datatype SectionInfo = SectionInfo(name: string, contentStart: int, contentEnd: int, contentText: string)

  const Indication := "Indication"
  const Technique := "Technique"
  const Findings := "Findings"
  const Impression := "Impression"

  /** The four sections every result holds. */
  const SectionNames: set<string> := {Indication, Technique, Findings, Impression}

  /** HeadingMap, looked up ignoring case. */
  function CanonicalOf(heading: string): (r: Option<string>)
    ensures r.Some? ==> r.value in SectionNames
  {
    if EqIgnoreCase(heading, "INDICATION") || EqIgnoreCase(heading, "REASON FOR EXAM")
      || EqIgnoreCase(heading, "CLINICAL HISTORY") then Some(Indication)
    else if EqIgnoreCase(heading, "TECHNIQUE") then Some(Technique)
    else if EqIgnoreCase(heading, "FINDINGS") then Some(Findings)
    else if EqIgnoreCase(heading, "IMPRESSION") || EqIgnoreCase(heading, "CONCLUSION") then Some(Impression)
    else None
  }

  /** The position of the first '\n' at or after `from`, or the length of the text. */
  function LineEnd(text: string, from: nat): (r: nat)
    ensures r == |text| || (from <= r < |text| && text[r] == '\n')
    ensures forall i :: from <= i < r && i < |text| ==> text[i] != '\n'
    decreases |text| - from
  {
    if from >= |text| then |text|
    else if text[from] == '\n' then from
    else LineEnd(text, from + 1)
  }

  /** Where a heading's content starts: at the rest of its line, or, when that is blank,
    * after the end of the line, but not beyond the text. */
  function ContentStartOf(text: string, m: HeadingMatch): nat {
    if IsBlank(m.rest) then
      var start := LineEnd(text, m.index) + 1;
      if start > |text| then |text| else start
    else m.restIndex
  }

  /** The heading a match yields, if its heading text names a section. */
  function HeadingOf(text: string, m: HeadingMatch): Option<Heading> {
    match CanonicalOf(Trim(m.heading))
    case None => None
    case Some(c) => Some(Heading(c, m.index, ContentStartOf(text, m)))
  }

  /** The headings of the matches, in match order. */
  function Headings(text: string, ms: seq<HeadingMatch>): seq<Heading>
    decreases |ms|
  {
    if ms == [] then []
    else
      var h := HeadingOf(text, ms[|ms| - 1]);
      Headings(text, ms[..|ms| - 1]) + (if h.Some? then [h.value] else [])
  }

  function StartKey(h: Heading): seq<int> {
    [h.headingStart]
  }

  /** SafeSubstring: the substring, clipped to the text, and empty when it starts outside
    * the text or has no length. */
  function SafeSubstring(text: string, start: int, length: int): (r: string)
    ensures |r| <= |text|
    ensures 0 <= start < |text| && length > 0 ==>
      r == text[start..if start + length > |text| then |text| else start + length]
    ensures !(0 <= start < |text| && length > 0) ==> r == ""
  {
    if start < 0 || start >= |text| || length <= 0 then ""
    else
      var n := if start + length > |text| then |text| - start else length;
      text[start..start + n]
  }

  /** The section the i-th heading opens: it ends where the next heading starts, or at the
    * end of the text, and never before it starts. */
  function SectionAt(text: string, hs: seq<Heading>, i: nat): SectionInfo
    requires i < |hs|
  {
    var h := hs[i];
    var end0 := if i + 1 < |hs| then hs[i + 1].headingStart else |text|;
    var end := if end0 < h.contentStart then h.contentStart else end0;
    SectionInfo(h.canonical, h.contentStart, end, SafeSubstring(text, h.contentStart, end - h.contentStart))
  }

  /** The section a report without that heading gets. */
  function Missing(name: string): SectionInfo {
    SectionInfo(name, -1, -1, "")
  }

  /** The named section is present and its content is not blank. */
  predicate HasContent(sections: map<string, SectionInfo>, name: string) {
    name in sections && !IsBlank(sections[name].contentText)
  }

  /** The index of the first heading of section c. */
  function FirstIndex(hs: seq<Heading>, c: string): (r: Option<nat>)
    ensures r.None? <==> forall i :: 0 <= i < |hs| ==> hs[i].canonical != c
    ensures r.Some? ==> r.value < |hs| && hs[r.value].canonical == c
    ensures r.Some? ==> forall j :: 0 <= j < r.value ==> hs[j].canonical != c
  {
    if hs == [] then None
    else if hs[0].canonical == c then Some(0)
    else match FirstIndex(hs[1..], c)
      case None => None
      case Some(i) => Some(i + 1)
  }

  /** The recognised headings ordered by position. */
  function SortedHeadings(text: string, ms: seq<HeadingMatch>): seq<Heading> {
    SortBy(Headings(text, ms), StartKey)
  }

  /** Section c: headed by its first heading, or missing. */
  function SectionFor(text: string, hs: seq<Heading>, c: string): SectionInfo {
    match FirstIndex(hs, c)
    case None => Missing(c)
    case Some(i) => SectionAt(text, hs, i)
  }

  // ---------------------------------------------------------------------
  // The detector's methods

  /** GetLineEndIndex: scans forward to the next '\n'. */
  method GetLineEndIndex(text: string, startIndex: nat) returns (r: nat)
    ensures r == LineEnd(text, startIndex)
  {
    var index := startIndex;
    while index < |text|
      invariant startIndex <= index
      invariant LineEnd(text, index) == LineEnd(text, startIndex)
      decreases |text| - index
    {
      if text[index] == '\n' {
        return index;
      }
      index := index + 1;
    }
    return |text|;
  }

  /** EnsureMissingSection: adds the empty section of that name unless one is there. */
  method EnsureMissingSection(sections: map<string, SectionInfo>, name: string)
    returns (sections': map<string, SectionInfo>)
    ensures name in sections ==> sections' == sections
    ensures name !in sections ==> sections' == sections[name := Missing(name)]
  {
    if name in sections {
      return sections;
    }
    sections' := sections[name := Missing(name)];
  }

  /** Detect's first loop: the recognised headings of the matches, in match order, with
    * where each section's content starts. */
  method CollectHeadings(reportText: string, matches: seq<HeadingMatch>) returns (headings: seq<Heading>)
    ensures headings == Headings(reportText, matches)
  {
    headings := [];
    for k := 0 to |matches|
      invariant headings == Headings(reportText, matches[..k])
    {
      var headingMatch := matches[k];
      HeadingsStep(reportText, matches, k);
      var canonical := CanonicalOf(Trim(headingMatch.heading));
      if canonical.None? {
        continue;
      }
      var contentStart := headingMatch.restIndex;
      if IsBlank(headingMatch.rest) {
        var lineEnd := GetLineEndIndex(reportText, headingMatch.index);
        contentStart := lineEnd + 1;
        if contentStart > |reportText| {
          contentStart := |reportText|;
        }
      }
      assert contentStart == ContentStartOf(reportText, headingMatch);
      headings := headings + [Heading(canonical.value, headingMatch.index, contentStart)];
    }
    assert matches[..|matches|] == matches;
  }

  /** Detect's second loop: a section for the first heading of each name, ending where the
    * next heading starts. */
  method OpenSections(reportText: string, headings: seq<Heading>) returns (sections: map<string, SectionInfo>)
    ensures SectionsSoFar(reportText, headings, sections, |headings|)
  {
    sections := map[];
    for index := 0 to |headings|
      invariant SectionsSoFar(reportText, headings, sections, index)
    {
      var heading := headings[index];
      if heading.canonical in sections {
        KeepStep(reportText, headings, sections, index);
        continue;
      }
      OpenStep(reportText, headings, sections, index);
      var contentEnd := |reportText|;
      if index + 1 < |headings| {
        contentEnd := headings[index + 1].headingStart;
      }
      if contentEnd < heading.contentStart {
        contentEnd := heading.contentStart;
      }
      var contentText := SafeSubstring(reportText, heading.contentStart, contentEnd - heading.contentStart);
      SectionAtIs(reportText, headings, index, contentEnd);
      sections := sections[heading.canonical := SectionInfo(heading.canonical, heading.contentStart, contentEnd, contentText)];
    }
  }

  /** Detect's closing calls: every section name without a heading gets an empty section. */
  method AddMissingSections(headed: map<string, SectionInfo>) returns (sections: map<string, SectionInfo>)
    ensures sections.Keys == headed.Keys + SectionNames
    ensures forall c :: c in headed ==> sections[c] == headed[c]
    ensures forall c :: c in SectionNames && c !in headed ==> sections[c] == Missing(c)
  {
    sections := EnsureMissingSection(headed, Indication);
    ghost var s1 := sections;
    sections := EnsureMissingSection(sections, Technique);
    ghost var s2 := sections;
    sections := EnsureMissingSection(sections, Findings);
    ghost var s3 := sections;
    sections := EnsureMissingSection(sections, Impression);
    FillMissing(headed, s1, s2, s3, sections, Indication, Technique, Findings, Impression);
  }

  /** Detect: collects the recognised headings, orders them by position, opens a section
    * at the first heading of each name and adds the missing ones. */
  method Detect(reportText: string, matches: seq<HeadingMatch>) returns (sections: map<string, SectionInfo>)
    ensures sections.Keys == SectionNames
    ensures forall c :: c in SectionNames ==> sections[c] == SectionFor(reportText, SortedHeadings(reportText, matches), c)
  {
    var headings := CollectHeadings(reportText, matches);
    HeadingNames(reportText, matches);
    headings := SortBy(headings, StartKey);
    SortedHeadingNames(reportText, matches);
    var headed := OpenSections(reportText, headings);
    sections := AddMissingSections(headed);
    OpenedNames(reportText, headings, headed, SectionNames);
    SectionsAreSectionFor(reportText, headings, headed, sections, SectionNames);
  }

  /** The section the loop builds for the index-th heading. */
  lemma SectionAtIs(text: string, hs: seq<Heading>, index: nat, contentEnd: int)
    requires index < |hs|
    requires contentEnd ==
      var end0 := if index + 1 < |hs| then hs[index + 1].headingStart else |text|;
      if end0 < hs[index].contentStart then hs[index].contentStart else end0
    ensures SectionAt(text, hs, index) ==
      SectionInfo(hs[index].canonical, hs[index].contentStart, contentEnd,
                  SafeSubstring(text, hs[index].contentStart, contentEnd - hs[index].contentStart))
  {
  }

  /** One match more adds its heading, if it has one, at the end. */
  lemma HeadingsStep(text: string, ms: seq<HeadingMatch>, k: nat)
    requires k < |ms|
    ensures Headings(text, ms[..k + 1]) ==
      Headings(text, ms[..k]) + (if HeadingOf(text, ms[k]).Some? then [HeadingOf(text, ms[k]).value] else [])
  {
    assert ms[..k + 1][..k] == ms[..k];
  }

  /** Every heading names one of the four sections. */
  lemma {:induction false} HeadingNames(text: string, ms: seq<HeadingMatch>)
    ensures forall h :: h in Headings(text, ms) ==> h.canonical in SectionNames
    decreases |ms|
  {
    if ms != [] {
      HeadingNames(text, ms[..|ms| - 1]);
    }
  }

  lemma SortedHeadingNames(text: string, ms: seq<HeadingMatch>)
    ensures forall h :: h in SortBy(Headings(text, ms), StartKey) ==> h.canonical in SectionNames
  {
    HeadingNames(text, ms);
    forall h | h in SortBy(Headings(text, ms), StartKey)
      ensures h.canonical in SectionNames
    {
      SortByMembers(Headings(text, ms), StartKey, h);
    }
  }

  /** The sections headed by the first `index` headings: one for each name among them, by
    * the first heading of that name. */
  ghost predicate SectionsSoFar(text: string, hs: seq<Heading>, sections: map<string, SectionInfo>, index: nat)
    requires index <= |hs|
  {
    (forall c :: c in sections <==> exists i :: 0 <= i < index && hs[i].canonical == c)
    && (forall c :: c in sections ==>
          FirstIndex(hs, c).Some? && sections[c] == SectionAt(text, hs, FirstIndex(hs, c).value))
  }

  /** A heading whose name has a section already changes nothing. */
  lemma KeepStep(text: string, hs: seq<Heading>, sections: map<string, SectionInfo>, index: nat)
    requires index < |hs| && SectionsSoFar(text, hs, sections, index)
    requires hs[index].canonical in sections
    ensures SectionsSoFar(text, hs, sections, index + 1)
  {
    SeenNames(hs, sections, index, sections);
  }

  /** Any other heading opens its section. */
  lemma OpenStep(text: string, hs: seq<Heading>, sections: map<string, SectionInfo>, index: nat)
    requires index < |hs| && SectionsSoFar(text, hs, sections, index)
    requires hs[index].canonical !in sections
    ensures SectionsSoFar(text, hs, sections[hs[index].canonical := SectionAt(text, hs, index)], index + 1)
  {
    var c := hs[index].canonical;
    var next := sections[c := SectionAt(text, hs, index)];
    assert FirstIndex(hs, c) == Some(index);
    SeenNames(hs, sections, index, next);
    forall d | d in next
      ensures FirstIndex(hs, d).Some? && next[d] == SectionAt(text, hs, FirstIndex(hs, d).value)
    {
      if d != c {
        assert d in sections;
      }
    }
  }

  /** The names seen among the first index + 1 headings: those among the first index,
    * and the name of heading number index. */
  lemma SeenNames(hs: seq<Heading>, sections: map<string, SectionInfo>, index: nat, next: map<string, SectionInfo>)
    requires index < |hs|
    requires forall c :: c in sections <==> exists i :: 0 <= i < index && hs[i].canonical == c
    requires next.Keys == sections.Keys + {hs[index].canonical}
    ensures forall c :: c in next <==> exists i :: 0 <= i < index + 1 && hs[i].canonical == c
  {
    forall c ensures c in next <==> exists i :: 0 <= i < index + 1 && hs[i].canonical == c {
      if c == hs[index].canonical {
        assert c in next;
      }
    }
  }

  /** Adding four missing sections in turn keeps the detected ones and gives every other
    * of the four names its missing section. */
  lemma FillMissing(s0: map<string, SectionInfo>, s1: map<string, SectionInfo>, s2: map<string, SectionInfo>,
                    s3: map<string, SectionInfo>, s4: map<string, SectionInfo>,
                    n1: string, n2: string, n3: string, n4: string)
    requires n1 in s0 ==> s1 == s0
    requires n1 !in s0 ==> s1 == s0[n1 := Missing(n1)]
    requires n2 in s1 ==> s2 == s1
    requires n2 !in s1 ==> s2 == s1[n2 := Missing(n2)]
    requires n3 in s2 ==> s3 == s2
    requires n3 !in s2 ==> s3 == s2[n3 := Missing(n3)]
    requires n4 in s3 ==> s4 == s3
    requires n4 !in s3 ==> s4 == s3[n4 := Missing(n4)]
    ensures s4.Keys == s0.Keys + {n1, n2, n3, n4}
    ensures forall c :: c in s0 ==> s4[c] == s0[c]
    ensures forall c :: c in {n1, n2, n3, n4} && c !in s0 ==> s4[c] == Missing(c)
  {
  }

  lemma OpenedNames(text: string, hs: seq<Heading>, s0: map<string, SectionInfo>, names: set<string>)
    requires forall h :: h in hs ==> h.canonical in names
    requires SectionsSoFar(text, hs, s0, |hs|)
    ensures s0.Keys <= names
  {
    forall c | c in s0 ensures c in names {
      var i :| 0 <= i < |hs| && hs[i].canonical == c;
      assert hs[i] in hs;
    }
  }

  lemma SectionsAreSectionFor(text: string, hs: seq<Heading>, s0: map<string, SectionInfo>,
                               s4: map<string, SectionInfo>, names: set<string>)
    requires SectionsSoFar(text, hs, s0, |hs|)
    requires s4.Keys == s0.Keys + names
    requires forall c :: c in s0 ==> s4[c] == s0[c]
    requires forall c :: c in names && c !in s0 ==> s4[c] == Missing(c)
    ensures forall c :: c in names ==> s4[c] == SectionFor(text, hs, c)
  {
    forall c | c in names
      ensures s4[c] == SectionFor(text, hs, c)
    {
      if c !in s0 {
        assert FirstIndex(hs, c).None?;
      }
    }
  }

  // ---------------------------------------------------------------------
  // Properties of the detected sections

  /** A match the heading expression can return: it and the rest of its line lie within
    * the text. */
  predicate MatchWithin(text: string, m: HeadingMatch) {
    m.index <= |text| && m.restIndex <= |text|
  }

  /** A section is missing exactly when no heading names it, and then it is (-1, -1, "");
    * otherwise it is opened by the first heading of that name, starts where that heading's
    * content starts and ends where the next heading starts (or at the end of the text),
    * never before it starts. */
  lemma SectionForShape(text: string, hs: seq<Heading>, c: string)
    ensures SectionFor(text, hs, c).name == c
    ensures SectionFor(text, hs, c).contentStart == -1 <==> forall i :: 0 <= i < |hs| ==> hs[i].canonical != c
    ensures SectionFor(text, hs, c).contentStart == -1 ==> SectionFor(text, hs, c) == Missing(c)
    ensures forall i :: 0 <= i < |hs| && hs[i].canonical == c && (forall j :: 0 <= j < i ==> hs[j].canonical != c) ==>
      var r := SectionFor(text, hs, c);
      var next := if i + 1 < |hs| then hs[i + 1].headingStart else |text|;
      r.contentStart == hs[i].contentStart
      && r.contentEnd == (if next < hs[i].contentStart then hs[i].contentStart else next)
      && r.contentStart <= r.contentEnd
  {
    var f := FirstIndex(hs, c);
    if f.Some? {
      forall i | 0 <= i < |hs| && hs[i].canonical == c && (forall j :: 0 <= j < i ==> hs[j].canonical != c)
        ensures i == f.value
      {
        if i != f.value {
          assert false;
        }
      }
    }
  }

  /** With headings inside the text, every detected section's text is exactly the slice
    * of the report between its start and its end. */
  lemma SectionForSpan(text: string, hs: seq<Heading>, c: string)
    requires forall h :: h in hs ==> h.headingStart <= |text| && h.contentStart <= |text|
    ensures var r := SectionFor(text, hs, c);
      r.contentStart != -1 ==>
        (0 <= r.contentStart <= r.contentEnd <= |text| && r.contentText == text[r.contentStart..r.contentEnd])
  {
    var f := FirstIndex(hs, c);
    if f.Some? {
      var i := f.value;
      assert hs[i] in hs;
      if i + 1 < |hs| {
        assert hs[i + 1] in hs;
      }
    }
  }

  /** Every recognised heading comes from a match, at that match's position. */
  lemma {:induction false} HeadingsFromMatches(text: string, ms: seq<HeadingMatch>, h: Heading)
    requires h in Headings(text, ms)
    ensures exists m :: m in ms && HeadingOf(text, m) == Some(h)
    decreases |ms|
  {
    var last := ms[|ms| - 1];
    if h in Headings(text, ms[..|ms| - 1]) {
      HeadingsFromMatches(text, ms[..|ms| - 1], h);
      var m :| m in ms[..|ms| - 1] && HeadingOf(text, m) == Some(h);
      assert m in ms;
    } else {
      assert HeadingOf(text, last) == Some(h);
    }
  }

  /** Matches within the text give headings within the text. */
  lemma SortedHeadingsWithin(text: string, ms: seq<HeadingMatch>)
    requires forall m :: m in ms ==> MatchWithin(text, m)
    ensures forall h :: h in SortedHeadings(text, ms) ==> h.headingStart <= |text| && h.contentStart <= |text|
  {
    forall h | h in SortedHeadings(text, ms)
      ensures h.headingStart <= |text| && h.contentStart <= |text|
    {
      SortByMembers(Headings(text, ms), StartKey, h);
      HeadingsFromMatches(text, ms, h);
    }
  }

  /** The detector's span property: for matches within the text, each of the four sections
    * is either missing or holds exactly the text between its start and its end. */
  lemma DetectedSpans(text: string, ms: seq<HeadingMatch>, c: string)
    requires forall m :: m in ms ==> MatchWithin(text, m)
    ensures var r := SectionFor(text, SortedHeadings(text, ms), c);
      r.contentStart == -1 || (0 <= r.contentStart <= r.contentEnd <= |text|
        && r.contentText == text[r.contentStart..r.contentEnd])
  {
    SortedHeadingsWithin(text, ms);
    SectionForSpan(text, SortedHeadings(text, ms), c);
  }

  /** The headings are taken in order of position, and each recognised heading is kept
    * exactly as often as it occurs. */
  lemma SortedHeadingsOrder(text: string, ms: seq<HeadingMatch>)
    ensures var hs := SortedHeadings(text, ms);
      forall i, j :: 0 <= i < j < |hs| ==> hs[i].headingStart <= hs[j].headingStart
    ensures multiset(SortedHeadings(text, ms)) == multiset(Headings(text, ms))
  {
    var hs := SortedHeadings(text, ms);
    SortBySorted(Headings(text, ms), StartKey);
    SortByPermutes(Headings(text, ms), StartKey);
    forall i, j | 0 <= i < j < |hs| ensures hs[i].headingStart <= hs[j].headingStart {
      assert LexLe(StartKey(hs[i]), StartKey(hs[j]));
    }
  }

  /** A heading with an empty rest of line starts its content on the next line: just after
    * the first line break at or after the heading, or at the end of the text when there is
    * none. */
  lemma BlankRestStartsNextLine(text: string, m: HeadingMatch)
    requires IsBlank(m.rest)
    ensures var s := ContentStartOf(text, m);
      (s == |text| && forall i :: m.index <= i < |text| - 1 ==> text[i] != '\n')
      || (m.index < s <= |text| && text[s - 1] == '\n' && forall i :: m.index <= i < s - 1 ==> text[i] != '\n')
  {
  }

  /** A heading with text on its line starts its content there. */
  lemma InlineRestStartsThere(text: string, m: HeadingMatch)
    requires !IsBlank(m.rest)
    ensures ContentStartOf(text, m) == m.restIndex
  {
  }

  /** The heading names are looked up ignoring case, with aliases: "REASON FOR EXAM" and
    * "CLINICAL HISTORY" open the indication, "CONCLUSION" the impression. */
  lemma ReasonForExamIsIndication(heading: string)
    requires EqIgnoreCase(heading, "REASON FOR EXAM")
    ensures CanonicalOf(heading) == Some(Indication)
  {
    EqIgnoreCaseLength(heading, "REASON FOR EXAM");
  }

  lemma ClinicalHistoryIsIndication(heading: string)
    requires EqIgnoreCase(heading, "CLINICAL HISTORY")
    ensures CanonicalOf(heading) == Some(Indication)
  {
    EqIgnoreCaseLength(heading, "CLINICAL HISTORY");
  }

  lemma ConclusionIsImpression(heading: string)
    requires EqIgnoreCase(heading, "CONCLUSION")
    ensures CanonicalOf(heading) == Some(Impression)
  {
    EqIgnoreCaseLength(heading, "CONCLUSION");
    assert Lower(heading)[0] == Lower("CONCLUSION")[0] == 'c';
    assert Lower("INDICATION")[0] == 'i' && Lower("IMPRESSION")[0] == 'i';
  }

  /** A word that is none of the headings, such as "HISTORY", opens no section. */
  lemma OtherHeadingIgnored(heading: string)
    requires |heading| == 7
    ensures CanonicalOf(heading) == None
  {
    if CanonicalOf(heading).Some? {
      if EqIgnoreCase(heading, "INDICATION") { EqIgnoreCaseLength(heading, "INDICATION"); }
      if EqIgnoreCase(heading, "REASON FOR EXAM") { EqIgnoreCaseLength(heading, "REASON FOR EXAM"); }
      if EqIgnoreCase(heading, "CLINICAL HISTORY") { EqIgnoreCaseLength(heading, "CLINICAL HISTORY"); }
      if EqIgnoreCase(heading, "TECHNIQUE") { EqIgnoreCaseLength(heading, "TECHNIQUE"); }
      if EqIgnoreCase(heading, "FINDINGS") { EqIgnoreCaseLength(heading, "FINDINGS"); }
      if EqIgnoreCase(heading, "IMPRESSION") { EqIgnoreCaseLength(heading, "IMPRESSION"); }
      if EqIgnoreCase(heading, "CONCLUSION") { EqIgnoreCaseLength(heading, "CONCLUSION"); }
    }
  }
}
