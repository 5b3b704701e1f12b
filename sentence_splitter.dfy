/** The sentence splitter: cuts a section's text into trimmed sentences at '.', ';', ':'
  * and line breaks, keeping the terminator in the sentence it ends and leaving the
  * period of a whitelisted abbreviation alone. */
module SentenceSplitter {
  import opened Text
  import opened Sequences

  /** A sentence with its position in the split text: Text, Start and End. */
  datatype Sentence = Sentence(text: string, start: int, end: int)

  /** The abbreviations whose period does not end a sentence, compared ignoring case. */
  const Abbreviations: seq<string> := ["dr.", "vs.", "mr.", "mrs.", "ms.", "e.g.", "i.e."]

  predicate IsTerminator(c: char) {
    c == '.' || c == ';' || c == ':' || c == '\n' || c == '\r'
  }

  /** The start of the run of non-whitespace characters that ends just before p. */
  function TokenStart(text: string, p: nat): (ts: nat)
    requires p <= |text|
    ensures ts <= p
    ensures forall i :: ts <= i < p ==> !IsWhiteSpace(text[i])
    ensures ts > 0 ==> IsWhiteSpace(text[ts - 1])
  {
    if p == 0 || IsWhiteSpace(text[p - 1]) then p else TokenStart(text, p - 1)
  }

  /** The period at p ends a whitelisted abbreviation: the token that runs back from p to
    * the previous whitespace is longer than the period alone and, trimmed, is one of the
    * abbreviations. */
  predicate AbbreviationAt(text: string, p: nat)
    requires p < |text|
  {
    var ts := TokenStart(text, p);
    p - ts + 1 > 1 && IsAbbreviationToken(text[ts..p + 1])
  }

  /** The token, trimmed, is one of the abbreviations. */
  predicate IsAbbreviationToken(token: string) {
    ContainsIgnoreCase(Abbreviations, Trim(token))
  }

  /** Position i ends a sentence: a terminator that is not an abbreviation's period. */
  predicate IsBoundaryAt(text: string, i: nat)
    requires i < |text|
  {
    IsTerminator(text[i]) && !(text[i] == '.' && AbbreviationAt(text, i))
  }

  /** The end of the sentence closed at the boundary i: "\r\n" is one boundary. */
  function BoundaryEnd(text: string, i: nat): (end: nat)
    requires i < |text|
    ensures i < end <= |text|
  {
    if text[i] == '\r' && i + 1 < |text| && text[i + 1] == '\n' then i + 2 else i + 1
  }

  /** s is a piece of text, given with its position, and has no white space at either end. */
  predicate WellFormed(text: string, s: Sentence) {
    0 <= s.start < s.end <= |text| && s.text == text[s.start..s.end]
    && !IsWhiteSpace(text[s.start]) && !IsWhiteSpace(text[s.end - 1])
  }

  /** The sentence text[start..end] yields: none when the range is empty or blank, else the
    * range with its white space trimmed. */
  function SegmentOf(text: string, start: nat, end: nat): seq<Sentence>
    requires end <= |text|
  {
    if end <= start then []
    else
      var a := SkipWhiteSpaceTo(text, start, end);
      var b := BackWhiteSpace(text, a, end);
      if b <= a then [] else [Sentence(text[a..b], a, b)]
  }

  /** The segment is empty exactly when the range is empty or blank; otherwise it is one
    * well-formed sentence inside the range that holds every non-whitespace character of
    * the range. */
  lemma SegmentFacts(text: string, start: nat, end: nat)
    requires end <= |text|
    ensures var r := SegmentOf(text, start, end);
      |r| <= 1
      && (r == [] <==> end <= start || IsBlank(text[start..end]))
      && (r != [] ==> WellFormed(text, r[0]) && start <= r[0].start && r[0].end <= end)
      && (forall k :: start <= k < end && !IsWhiteSpace(text[k]) ==> r != [] && Covers(r[0], k))
  {
    if end > start {
      var a := SkipWhiteSpaceTo(text, start, end);
      var b := BackWhiteSpace(text, a, end);
      if b <= a {
        assert forall i :: start <= i < end ==> IsWhiteSpace(text[i]);
      } else {
        assert !IsWhiteSpace(text[a]);
        assert text[start..end][a - start] == text[a];
      }
    }
  }

  /** What the scan from `index` on yields, the current sentence having begun at `start`. */
  function SplitFrom(text: string, start: nat, index: nat): seq<Sentence>
    requires start <= index <= |text|
    decreases |text| - index
  {
    if index == |text| then SegmentOf(text, start, |text|)
    else if !IsBoundaryAt(text, index) then SplitFrom(text, start, index + 1)
    else
      var end := BoundaryEnd(text, index);
      SegmentOf(text, start, end) + SplitFrom(text, end, end)
  }

  /** The sentences of the whole text. */
  function Sentences(text: string): seq<Sentence> {
    SplitFrom(text, 0, 0)
  }

  /** A position that is no boundary extends the current sentence. */
  lemma SkipStep(text: string, sentences: seq<Sentence>, start: nat, index: nat, all: seq<Sentence>)
    requires start <= index < |text| && !IsBoundaryAt(text, index)
    requires sentences + SplitFrom(text, start, index) == all
    ensures sentences + SplitFrom(text, start, index + 1) == all
  {
  }

  /** A boundary closes the current sentence; the next one begins after it. */
  lemma CloseStep(text: string, sentences: seq<Sentence>, start: nat, index: nat, all: seq<Sentence>)
    requires start <= index < |text| && IsBoundaryAt(text, index)
    requires sentences + SplitFrom(text, start, index) == all
    ensures var end := BoundaryEnd(text, index);
      sentences + SegmentOf(text, start, end) + SplitFrom(text, end, end) == all
  {
    var end := BoundaryEnd(text, index);
    Associative(sentences, SegmentOf(text, start, end), SplitFrom(text, end, end));
  }

  // ---------------------------------------------------------------------
  // Properties of the sentences

  /** No boundary lies inside s: only its last character may be one. */
  predicate NoInnerBoundary(text: string, s: Sentence)
    requires WellFormed(text, s)
  {
    forall k :: s.start <= k < s.end - 1 ==> !IsBoundaryAt(text, k)
  }

  predicate Covers(s: Sentence, k: int) {
    s.start <= k < s.end
  }

  /** Each sentence ends before the next one starts. */
  predicate Ordered(ss: seq<Sentence>) {
    forall i, j :: 0 <= i < j < |ss| ==> ss[i].end <= ss[j].start
  }

  /** Every sentence found from `start` on is well formed, lies after `start` and holds no
    * boundary but its last character. */
  lemma {:induction false} SplitFromWellFormed(text: string, start: nat, index: nat)
    requires start <= index <= |text|
    requires forall k :: start <= k < index ==> !IsBoundaryAt(text, k)
    ensures forall s :: s in SplitFrom(text, start, index) ==>
      WellFormed(text, s) && start <= s.start && NoInnerBoundary(text, s)
    decreases |text| - index
  {
    if index == |text| {
      SegmentFacts(text, start, |text|);
    } else if !IsBoundaryAt(text, index) {
      SplitFromWellFormed(text, start, index + 1);
    } else {
      var end := BoundaryEnd(text, index);
      SplitFromWellFormed(text, end, end);
      SegmentFacts(text, start, end);
      SegmentNoInnerBoundary(text, start, index);
    }
  }

  /** The sentence a boundary closes holds no other boundary: a "\r\n" pair ends in white
    * space, which trimming removes. */
  lemma SegmentNoInnerBoundary(text: string, start: nat, index: nat)
    requires start <= index < |text| && IsBoundaryAt(text, index)
    requires forall k :: start <= k < index ==> !IsBoundaryAt(text, k)
    ensures forall s :: s in SegmentOf(text, start, BoundaryEnd(text, index)) ==> NoInnerBoundary(text, s)
  {
    var seg := SegmentOf(text, start, BoundaryEnd(text, index));
    SegmentFacts(text, start, BoundaryEnd(text, index));
    if seg != [] {
      assert IsWhiteSpace('\n');
      assert seg[0].end <= index + 1;
    }
  }

  /** The sentences found from `start` on are in order, do not overlap and begin at or
    * after `start`. */
  lemma {:induction false} SplitFromOrdered(text: string, start: nat, index: nat)
    requires start <= index <= |text|
    ensures Ordered(SplitFrom(text, start, index))
    ensures forall j :: 0 <= j < |SplitFrom(text, start, index)| ==> start <= SplitFrom(text, start, index)[j].start
    decreases |text| - index
  {
    if index == |text| {
      SegmentFacts(text, start, |text|);
    } else if !IsBoundaryAt(text, index) {
      SplitFromOrdered(text, start, index + 1);
      assert SplitFrom(text, start, index) == SplitFrom(text, start, index + 1);
    } else {
      var end := BoundaryEnd(text, index);
      SplitFromOrdered(text, end, end);
      SegmentFacts(text, start, end);
      var seg := SegmentOf(text, start, end);
      var rest := SplitFrom(text, end, end);
      assert SplitFrom(text, start, index) == seg + rest;
      OrderedConcat(seg, rest, start, end);
    }
  }

  /** At most one sentence inside [lo, mid) followed by ordered sentences from mid on is
    * ordered, and starts at or after lo. */
  lemma OrderedConcat(seg: seq<Sentence>, rest: seq<Sentence>, lo: int, mid: int)
    requires lo <= mid && |seg| <= 1
    requires seg != [] ==> lo <= seg[0].start && seg[0].end <= mid
    requires Ordered(rest) && forall j :: 0 <= j < |rest| ==> mid <= rest[j].start
    ensures Ordered(seg + rest)
    ensures forall j :: 0 <= j < |seg + rest| ==> lo <= (seg + rest)[j].start
  {
    var all := seg + rest;
    forall i, j | 0 <= i < j < |all|
      ensures all[i].end <= all[j].start
    {
      if i < |seg| {
        assert all[i] == seg[0] && all[j] == rest[j - |seg|];
      } else {
        assert all[i] == rest[i - |seg|] && all[j] == rest[j - |seg|];
      }
    }
    forall j | 0 <= j < |all|
      ensures lo <= all[j].start
    {
      if j >= |seg| {
        assert all[j] == rest[j - |seg|];
      }
    }
  }

  /** Every non-whitespace character from `start` on falls in some sentence. */
  lemma {:induction false} SplitFromCovers(text: string, start: nat, index: nat, k: nat)
    requires start <= index <= |text|
    requires start <= k < |text| && !IsWhiteSpace(text[k])
    ensures exists j :: 0 <= j < |SplitFrom(text, start, index)| && Covers(SplitFrom(text, start, index)[j], k)
    decreases |text| - index
  {
    if index == |text| {
      SegmentFacts(text, start, |text|);
      assert Covers(SplitFrom(text, start, index)[0], k);
    } else if !IsBoundaryAt(text, index) {
      SplitFromCovers(text, start, index + 1, k);
      assert SplitFrom(text, start, index) == SplitFrom(text, start, index + 1);
    } else {
      var end := BoundaryEnd(text, index);
      var seg := SegmentOf(text, start, end);
      var rest := SplitFrom(text, end, end);
      assert SplitFrom(text, start, index) == seg + rest;
      if k < end {
        SegmentFacts(text, start, end);
        assert (seg + rest)[0] == seg[0] && Covers(seg[0], k);
      } else {
        SplitFromCovers(text, end, end, k);
        var j :| 0 <= j < |rest| && Covers(rest[j], k);
        assert (seg + rest)[|seg| + j] == rest[j];
      }
    }
  }

  /** The sentences partition the text's non-whitespace characters: each sentence is a
    * trimmed piece of the text at its own position, the sentences are in order and do not
    * overlap, every non-whitespace character falls in exactly one of them, and no
    * boundary lies inside a sentence. */
  lemma SentencesPartition(text: string)
    ensures var ss := Sentences(text);
      (forall s :: s in ss ==> WellFormed(text, s) && NoInnerBoundary(text, s))
      && Ordered(ss)
      && (forall k :: 0 <= k < |text| && !IsWhiteSpace(text[k]) ==> exists j :: 0 <= j < |ss| && Covers(ss[j], k))
      && (forall k, i, j :: 0 <= i < |ss| && 0 <= j < |ss| && Covers(ss[i], k) && Covers(ss[j], k) ==> i == j)
  {
    var ss := Sentences(text);
    SplitFromWellFormed(text, 0, 0);
    SplitFromOrdered(text, 0, 0);
    forall k | 0 <= k < |text| && !IsWhiteSpace(text[k])
      ensures exists j :: 0 <= j < |ss| && Covers(ss[j], k)
    {
      SplitFromCovers(text, 0, 0, k);
    }
  }

  /** Two non-whitespace characters with no boundary from the first up to the second fall
    * in the same sentence found from `start` on, the j-th. */
  lemma {:induction false} SplitFromJoins(text: string, start: nat, index: nat, k1: nat, k2: nat)
    returns (j: nat)
    requires start <= index <= |text|
    requires start <= k1 < k2 < |text| && !IsWhiteSpace(text[k1]) && !IsWhiteSpace(text[k2])
    requires forall m :: k1 <= m < k2 ==> !IsBoundaryAt(text, m)
    ensures j < |SplitFrom(text, start, index)|
    ensures Covers(SplitFrom(text, start, index)[j], k1) && Covers(SplitFrom(text, start, index)[j], k2)
    decreases |text| - index
  {
    if index == |text| {
      SegmentFacts(text, start, |text|);
      j := 0;
    } else if !IsBoundaryAt(text, index) {
      j := SplitFromJoins(text, start, index + 1, k1, k2);
    } else {
      var end := BoundaryEnd(text, index);
      var seg := SegmentOf(text, start, end);
      var rest := SplitFrom(text, end, end);
      assert SplitFrom(text, start, index) == seg + rest;
      NoBoundaryStraddles(text, index, k1, k2);
      if k2 < end {
        SegmentFacts(text, start, end);
        j := 0;
      } else {
        var i := SplitFromJoins(text, end, end, k1, k2);
        j := |seg| + i;
        assert (seg + rest)[j] == rest[i];
      }
    }
  }

  /** A stretch of text without boundaries lies wholly before or wholly after the end of
    * any sentence a boundary closes. */
  lemma NoBoundaryStraddles(text: string, index: nat, k1: nat, k2: nat)
    requires index < |text| && IsBoundaryAt(text, index)
    requires k1 < k2 < |text| && !IsWhiteSpace(text[k1])
    requires forall m :: k1 <= m < k2 ==> !IsBoundaryAt(text, m)
    ensures k2 < BoundaryEnd(text, index) || BoundaryEnd(text, index) <= k1
  {
    if k1 > index {
      assert IsWhiteSpace('\n');
    }
  }

  /** Sentences are cut at boundaries and only there: two non-whitespace characters lie
    * in the same sentence exactly when no boundary lies from the first up to the second.
    * Together with SentencesPartition this fixes the sentences of every text. */
  lemma SameSentenceIff(text: string, k1: nat, k2: nat)
    requires k1 < k2 < |text| && !IsWhiteSpace(text[k1]) && !IsWhiteSpace(text[k2])
    ensures var ss := Sentences(text);
      (exists j :: 0 <= j < |ss| && Covers(ss[j], k1) && Covers(ss[j], k2))
      <==> (forall m :: k1 <= m < k2 ==> !IsBoundaryAt(text, m))
  {
    var ss := Sentences(text);
    if forall m :: k1 <= m < k2 ==> !IsBoundaryAt(text, m) {
      var j := SplitFromJoins(text, 0, 0, k1, k2);
      assert Covers(ss[j], k1) && Covers(ss[j], k2);
    }
    if exists j :: 0 <= j < |ss| && Covers(ss[j], k1) && Covers(ss[j], k2) {
      var j :| 0 <= j < |ss| && Covers(ss[j], k1) && Covers(ss[j], k2);
      SplitFromWellFormed(text, 0, 0);
      assert ss[j] in ss;
      assert forall m :: k1 <= m < k2 ==> !IsBoundaryAt(text, m) by {
        forall m | k1 <= m < k2 ensures !IsBoundaryAt(text, m) {
          assert ss[j].start <= m < ss[j].end - 1;
        }
      }
    }
  }

  // ---------------------------------------------------------------------
  // The splitter's methods

  /** IsAbbreviation: walks back from the period to the previous white space and looks the
    * token up. */
  method IsAbbreviation(text: string, periodIndex: nat) returns (b: bool)
    requires periodIndex < |text|
    ensures b == AbbreviationAt(text, periodIndex)
  {
    var start: int := periodIndex - 1;
    while start >= 0 && !IsWhiteSpace(text[start])
      invariant -1 <= start < periodIndex
      invariant TokenStart(text, start + 1) == TokenStart(text, periodIndex)
      decreases start
    {
      start := start - 1;
    }
    var tokenStart := start + 1;
    assert tokenStart == TokenStart(text, periodIndex);
    var tokenLength := periodIndex - tokenStart + 1;
    if tokenLength <= 1 {
      return false;
    }
    var token := text[tokenStart..tokenStart + tokenLength];
    assert token == text[TokenStart(text, periodIndex)..periodIndex + 1];
    b := IsAbbreviationToken(token);
  }

  /** AddSentence: trims text[start..end] and appends it when something is left. */
  method AddSentence(text: string, start: nat, end: nat, sentences: seq<Sentence>)
    returns (sentences': seq<Sentence>)
    requires end <= |text|
    ensures sentences' == sentences + SegmentOf(text, start, end)
  {
    sentences' := sentences;
    if end <= start {
      return;
    }
    var trimmedStart := start;
    while trimmedStart < end && IsWhiteSpace(text[trimmedStart])
      invariant start <= trimmedStart <= end
      invariant forall i :: start <= i < trimmedStart ==> IsWhiteSpace(text[i])
    {
      trimmedStart := trimmedStart + 1;
    }
    var trimmedEnd := end;
    while trimmedEnd > trimmedStart && IsWhiteSpace(text[trimmedEnd - 1])
      invariant trimmedStart <= trimmedEnd <= end
      invariant forall i :: trimmedEnd <= i < end ==> IsWhiteSpace(text[i])
    {
      trimmedEnd := trimmedEnd - 1;
    }
    assert SkipWhiteSpaceTo(text, start, end) == trimmedStart;
    assert BackWhiteSpace(text, trimmedStart, end) == trimmedEnd;
    if trimmedEnd <= trimmedStart {
      return;
    }
    sentences' := sentences + [Sentence(text[trimmedStart..trimmedEnd], trimmedStart, trimmedEnd)];
  }

  /** Split: scans the text once, closing a sentence at every boundary and the last one at
    * the end of the text. */
  method Split(text: string) returns (sentences: seq<Sentence>)
    ensures sentences == Sentences(text)
  {
    sentences := [];
    var start := 0;
    var index := 0;
    ghost var all := Sentences(text);
    while index < |text|
      invariant start <= index <= |text|
      invariant sentences + SplitFrom(text, start, index) == all
      decreases |text| - index
    {
      var current := text[index];
      if !IsTerminator(current) {
        SkipStep(text, sentences, start, index, all);
        index := index + 1;
        continue;
      }
      if current == '.' {
        var abbreviation := IsAbbreviation(text, index);
        if abbreviation {
          SkipStep(text, sentences, start, index, all);
          index := index + 1;
          continue;
        }
      }
      CloseStep(text, sentences, start, index, all);
      ghost var boundary := index;
      var end := index + 1;
      if current == '\r' && index + 1 < |text| && text[index + 1] == '\n' {
        end := index + 2;
        index := index + 1;
      }
      assert end == BoundaryEnd(text, boundary);
      sentences := AddSentence(text, start, end, sentences);
      assert sentences + SplitFrom(text, end, end) == all;
      start := end;
      index := index + 1;
    }
    sentences := AddSentence(text, start, |text|, sentences);
  }
}
