/** The negation scope resolver: decides whether a concept found at some position of a
  * sentence is negated, by a negation cue after it ("not seen") or before it ("no",
  * "without"), within the cue's scope. */
module NegationScope {
  import opened Text
  import opened ScopeText

  const PreNegationCues := ["no", "denies", "without", "negative for", "free of", "absence of", "not"]
  const PostNegationCues := ["not seen", "not identified", "not demonstrated", "not visualized", "absent"]
  const PositiveClauseCues := ["is present", "are present", "is seen", "are seen", "was seen"]

  /** A cue occurs at or after the match and before the first scope break after the
    * match. */
  predicate CueInScope(text: string, cue: string, m: int) {
    exists i :: m <= i < |text| && OccursAt(text, cue, i) && !BreakBetween(text, m, i + 1)
  }

  predicate PostCueInScope(text: string, m: int) {
    exists q :: 0 <= q < |PostNegationCues| && CueInScope(text, PostNegationCues[q], m)
  }

  predicate PositiveCueAt(text: string, j: int) {
    exists q :: 0 <= q < |PositiveClauseCues| && OccursAt(text, PositiveClauseCues[q], j)
  }

  /** A comma in [start, end) followed, still before end, by a positive clause cue. */
  predicate PositiveClauseBetween(text: string, start: int, end: int) {
    exists k, j :: start <= k < j < end && 0 <= k < |text| && text[k] == ',' && PositiveCueAt(text, j)
  }

  /** When the concept at m counts as negated: the sentence is not blank, m lies inside it,
    * and, on the lower-cased sentence, either a post-negation cue lies in the match's scope,
    * or there is a pre-negation cue before the match, the latest-starting one is taken,
    * and neither a scope break nor a comma with a positive clause lies between its end and
    * the match. */
  predicate Negated(sentence: string, m: int) {
    !IsBlank(sentence) && 0 <= m < |sentence| &&
    var text := Lower(sentence);
    PostCueInScope(text, m) ||
    (var c := BestCue(text, PreNegationCues, m);
     c.index >= 0 && !BreakBetween(text, c.index + c.length, m)
     && !PositiveClauseBetween(text, c.index + c.length, m))
  }

  /** IsNegated: rules out a blank sentence and a position outside it, then tries the
    * post-negation cues, then the latest pre-negation cue and its scope. */
  method IsNegated(sentenceText: string, matchIndex: int) returns (negated: bool)
    ensures negated == Negated(sentenceText, matchIndex)
  {
    if IsBlank(sentenceText) || matchIndex < 0 || matchIndex >= |sentenceText| {
      return false;
    }
    var lower := Lower(sentenceText);
    var terminatorAfterMatch := FindTerminatorAfter(lower, matchIndex);
    var postCue := FindPostCue(lower, matchIndex, terminatorAfterMatch);
    if postCue {
      return true;
    }
    var preCueIndex, preCueLength := FindPreCue(lower, matchIndex);
    if preCueIndex < 0 {
      return false;
    }
    ChoiceWithin(lower, PreNegationCues, matchIndex);
    var terminated := HasTerminatorBetween(lower, preCueIndex + preCueLength, matchIndex);
    if terminated {
      return false;
    }
    var positive := PositiveCueBlocksScope(lower, preCueIndex + preCueLength, matchIndex);
    if positive {
      return false;
    }
    return true;
  }

  /** IsNegated's first loop: whether some post-negation cue's first occurrence at or
    * after the match comes before the first scope break. */
  method FindPostCue(lower: string, matchIndex: nat, terminatorAfterMatch: nat) returns (found: bool)
    requires matchIndex <= terminatorAfterMatch <= |lower|
    requires terminatorAfterMatch < |lower| ==> BreakAt(lower, terminatorAfterMatch)
    requires forall i :: matchIndex <= i < terminatorAfterMatch ==> !BreakAt(lower, i)
    ensures found == PostCueInScope(lower, matchIndex)
  {
    for q := 0 to |PostNegationCues|
      invariant forall q' :: 0 <= q' < q ==> !CueInScope(lower, PostNegationCues[q'], matchIndex)
    {
      var cue := PostNegationCues[q];
      var cueIndex := IndexOf(lower, cue, matchIndex);
      PostCueScope(lower, cue, matchIndex, terminatorAfterMatch);
      if cueIndex >= 0 && cueIndex < terminatorAfterMatch {
        return true;
      }
    }
    return false;
  }

  /** IsNegated's second loop: the latest-starting pre-negation cue before the match. */
  method FindPreCue(lower: string, matchIndex: nat) returns (preCueIndex: int, preCueLength: nat)
    requires matchIndex < |lower|
    ensures CueChoice(preCueIndex, preCueLength) == BestCue(lower, PreNegationCues, matchIndex)
  {
    preCueIndex := -1;
    preCueLength := 0;
    PreCuesChainSafe();
    for q := 0 to |PreNegationCues|
      invariant CueChoice(preCueIndex, preCueLength) == BestCue(lower, PreNegationCues[..q], matchIndex)
    {
      var cue := PreNegationCues[q];
      var cueIndex := FindLastCueIndex(lower, cue, matchIndex);
      BestCueStep(lower, PreNegationCues, q, matchIndex);
      if cueIndex >= 0 && cueIndex > preCueIndex {
        preCueIndex := cueIndex;
        preCueLength := |cue|;
      }
    }
    assert PreNegationCues[..|PreNegationCues|] == PreNegationCues;
  }

  /** FindTerminatorAfter: the first scope break at or after startIndex, or the end of the
    * text when there is none. */
  method FindTerminatorAfter(text: string, startIndex: nat) returns (earliest: nat)
    requires startIndex <= |text|
    ensures startIndex <= earliest <= |text|
    ensures earliest < |text| ==> BreakAt(text, earliest)
    ensures forall i :: startIndex <= i < earliest ==> !BreakAt(text, i)
  {
    earliest := |text|;
    for index := startIndex to |text|
      invariant earliest == |text|
      invariant forall i :: startIndex <= i < index ==> !IsPunctuationBreak(text[i])
    {
      if IsPunctuationBreak(text[index]) {
        earliest := index;
        break;
      }
    }
    for k := 0 to |ScopeTerminators|
      invariant startIndex <= earliest <= |text|
      invariant earliest < |text| ==> BreakAt(text, earliest)
      invariant forall i :: startIndex <= i < earliest ==> !IsPunctuationBreak(text[i])
      invariant forall q, i :: 0 <= q < k && startIndex <= i < earliest ==> !WordAt(text, ScopeTerminators[q], i)
    {
      var index := IndexOfWord(text, ScopeTerminators[k], startIndex, |text|);
      if index >= 0 && index < earliest {
        assert BreakAt(text, index);
        earliest := index;
      }
    }
  }

  /** PositiveCueBlocksScope: whether some comma in [start, end) is followed, before end,
    * by one of the positive clause cues. */
  method PositiveCueBlocksScope(text: string, start: nat, end: nat) returns (b: bool)
    requires end <= |text|
    ensures b == PositiveClauseBetween(text, start, end)
  {
    var index := start;
    while index < end
      invariant start <= index
      invariant forall k, j :: start <= k < index && k < j < end && text[k] == ',' ==> !PositiveCueAt(text, j)
      decreases end - index
    {
      if text[index] != ',' {
        index := index + 1;
        continue;
      }
      var commaIndex := index + 1;
      for c := 0 to |PositiveClauseCues|
        invariant forall q, j :: 0 <= q < c && commaIndex <= j < end ==> !OccursAt(text, PositiveClauseCues[q], j)
      {
        var cue := PositiveClauseCues[c];
        var cueIndex := IndexOf(text, cue, commaIndex);
        if cueIndex >= commaIndex && cueIndex < end {
          assert PositiveCueAt(text, cueIndex);
          return true;
        }
      }
      index := index + 1;
    }
    b := false;
  }

  // ---------------------------------------------------------------------
  // Lemmas the resolver's proof uses

  /** The first occurrence of a cue at or after the match lies before the first scope
    * break exactly when some occurrence does. */
  lemma PostCueScope(text: string, cue: string, m: nat, term: nat)
    requires |cue| > 0 && m <= term <= |text|
    requires term < |text| ==> BreakAt(text, term)
    requires forall i :: m <= i < term ==> !BreakAt(text, i)
    ensures (IndexOf(text, cue, m) >= 0 && IndexOf(text, cue, m) < term) <==> CueInScope(text, cue, m)
  {
    var f := IndexOf(text, cue, m);
    if f >= 0 && f < term {
      assert !BreakBetween(text, m, f + 1);
    }
    if CueInScope(text, cue, m) {
      var i :| m <= i < |text| && OccursAt(text, cue, i) && !BreakBetween(text, m, i + 1);
    }
  }

  /** Every pre-negation cue is chain-safe, so the backward search finds its last whole
    * occurrence. */
  lemma PreCuesChainSafe()
    ensures forall q :: 0 <= q < |PreNegationCues| ==> ChainSafe(PreNegationCues[q])
  {
    assert ChainSafe("negative for");
    assert ChainSafe("free of");
    assert ChainSafe("absence of");
  }

  /** The chosen cue lies inside the text and ends at or before the match. */
  lemma ChoiceWithin(text: string, cues: seq<string>, m: int)
    requires BestCue(text, cues, m).index >= 0
    ensures var c := BestCue(text, cues, m);
      c.index + c.length <= |text| && c.index + c.length <= m + 1
  {
    BestCueChosen(text, cues, m);
  }

  // ---------------------------------------------------------------------
  // Properties of the verdict

  /** A negated concept has a cue: a post-negation cue in its scope, or a whole-phrase
    * pre-negation cue ending at or before the match with no scope break between the cue's
    * end and the match. */
  lemma NegatedHasCue(sentence: string, m: int)
    requires Negated(sentence, m)
    ensures var text := Lower(sentence);
      PostCueInScope(text, m) ||
      exists q, i :: 0 <= q < |PreNegationCues| && WordAt(text, PreNegationCues[q], i)
        && i + |PreNegationCues[q]| <= m + 1 && !BreakBetween(text, i + |PreNegationCues[q]|, m)
  {
    var text := Lower(sentence);
    if !PostCueInScope(text, m) {
      var c := BestCue(text, PreNegationCues, m);
      BestCueChosen(text, PreNegationCues, m);
      var q :| 0 <= q < |PreNegationCues| && ChosenAt(text, PreNegationCues, m, q, c);
      assert WordAt(text, PreNegationCues[q], c.index);
    }
  }

  /** The pre-negation cue the verdict rests on starts no earlier than any whole-phrase
    * pre-negation cue ending at or before the match. */
  lemma LatestPreCueDecides(sentence: string, m: int, q: nat, i: int)
    requires q < |PreNegationCues|
    requires WordAt(Lower(sentence), PreNegationCues[q], i) && i + |PreNegationCues[q]| <= m + 1
    ensures i <= BestCue(Lower(sentence), PreNegationCues, m).index
  {
    assert i <= LastCueIndex(Lower(sentence), PreNegationCues[q], m);
  }

  /** Without any cue near the match the concept is not negated: no post-negation cue at or
    * after it and no whole-phrase pre-negation cue ending at or before it. */
  lemma NoCueNotNegated(sentence: string, m: int)
    requires forall q, i :: 0 <= q < |PostNegationCues| && m <= i ==> !OccursAt(Lower(sentence), PostNegationCues[q], i)
    requires forall q, i :: 0 <= q < |PreNegationCues| && i + |PreNegationCues[q]| <= m + 1 ==>
      !WordAt(Lower(sentence), PreNegationCues[q], i)
    ensures !Negated(sentence, m)
  {
    if Negated(sentence, m) {
      NegatedHasCue(sentence, m);
    }
  }

  /** A whole-phrase pre-negation cue ending at or before the match negates it when no
    * scope break and no comma lies anywhere before the match. */
  lemma PreCueWithoutBreakNegated(sentence: string, m: int, q: nat, i: int)
    requires !IsBlank(sentence) && 0 <= m < |sentence| && q < |PreNegationCues|
    requires WordAt(Lower(sentence), PreNegationCues[q], i) && i + |PreNegationCues[q]| <= m + 1
    requires !BreakBetween(Lower(sentence), 0, m)
    requires forall k :: 0 <= k < m ==> Lower(sentence)[k] != ','
    ensures Negated(sentence, m)
  {
    var text := Lower(sentence);
    LatestPreCueDecides(sentence, m, q, i);
    var c := BestCue(text, PreNegationCues, m);
    assert c.index >= 0;
  }

  /** A concept is not negated when no post-negation cue occurs at or after it and a scope
    * break at b < m follows the end of every whole-phrase pre-negation cue ending at or
    * before it. */
  lemma BreakAfterPreCuesNotNegated(sentence: string, m: int, b: int)
    requires forall q, i :: 0 <= q < |PostNegationCues| && m <= i ==> !OccursAt(Lower(sentence), PostNegationCues[q], i)
    requires b < m && BreakAt(Lower(sentence), b)
    requires forall q, i :: (0 <= q < |PreNegationCues| && WordAt(Lower(sentence), PreNegationCues[q], i)
      && i + |PreNegationCues[q]| <= m + 1) ==> i + |PreNegationCues[q]| <= b
    ensures !Negated(sentence, m)
  {
    var text := Lower(sentence);
    var c := BestCue(text, PreNegationCues, m);
    if c.index >= 0 {
      BestCueChosen(text, PreNegationCues, m);
      var q :| 0 <= q < |PreNegationCues| && ChosenAt(text, PreNegationCues, m, q, c);
      assert WordAt(text, PreNegationCues[q], c.index);
      assert BreakBetween(text, c.index + c.length, m);
    }
  }

  /** The characters a and b are the first two letters of a post-negation cue: "no" for
    * the four "not ..." cues, "ab" for "absent". */
  predicate OpensPostCue(a: char, b: char) {
    (a == 'n' && b == 'o') || (a == 'a' && b == 'b')
  }

  /** No post-negation cue occurs at or after from when no two adjacent characters there
    * open one. */
  lemma PostCuesAbsentFrom(text: string, from: int)
    requires forall i :: from <= i && 0 <= i && i + 1 < |text| ==> !OpensPostCue(text[i], text[i + 1])
    ensures forall q, i :: 0 <= q < |PostNegationCues| && from <= i ==> !OccursAt(text, PostNegationCues[q], i)
  {
    forall q, i | 0 <= q < |PostNegationCues| && from <= i && OccursAt(text, PostNegationCues[q], i) ensures false {
      OccursAtOpening(text, PostNegationCues[q], i);
      assert q in {0, 1, 2, 3, 4};
      assert OpensPostCue(text[i], text[i + 1]);
    }
  }

  /** A sentence that opens with the word "No" and a space negates the concept that
    * follows at position 3, whatever comes after it. */
  lemma LeadingNoNegates(sentence: string)
    requires |sentence| > 3 && (sentence[0] == 'N' || sentence[0] == 'n')
    requires (sentence[1] == 'O' || sentence[1] == 'o') && sentence[2] == ' '
    ensures Negated(sentence, 3)
  {
    var text := Lower(sentence);
    assert text[0] == 'n' && text[1] == 'o' && text[2] == ' ';
    assert !IsBlank(sentence) by {
      assert !IsWhiteSpace(sentence[0]);
    }
    assert WordAt(text, PreNegationCues[0], 0) by {
      assert text[0..2] == PreNegationCues[0];
    }
    assert !BreakBetween(text, 0, 3) by {
      forall i | 0 <= i < 3
        ensures !IsPunctuationBreak(text[i]) && (WordStart(text, i) ==> !OpensTerminator(text[i], text[i + 1]))
      {
        assert i in {0, 1, 2};
      }
      NoBreakIn(text, 0, 3);
    }
    PreCueWithoutBreakNegated(sentence, 3, 0, 0);
  }

  // ---------------------------------------------------------------------
  // The resolver's test sentences (NegationScopeResolverTests.cs)

  const NoPeOrPneumothorax := "No PE or pneumothorax; pneumonia present"

  /** "No" reaches "PE" (position 3) and, across "or", "pneumothorax" (position 9). */
  lemma NoReachesAcrossOr()
    ensures Negated(NoPeOrPneumothorax, 3) && Negated(NoPeOrPneumothorax, 9)
  {
    var text := Lower(NoPeOrPneumothorax);
    NoPeOrPneumothoraxLower();
    NoPeOrPneumothoraxOpening(text);
    PreCueWithoutBreakNegated(NoPeOrPneumothorax, 3, 0, 0);
    PreCueWithoutBreakNegated(NoPeOrPneumothorax, 9, 0, 0);
  }

  /** The semicolon ends the scope of "No": "pneumonia" (position 23) is not negated. */
  lemma SemicolonEndsScope()
    ensures !Negated(NoPeOrPneumothorax, 23)
  {
    var text := Lower(NoPeOrPneumothorax);
    NoPeOrPneumothoraxLower();
    NoPeOrPneumothoraxAfterSemicolon(text);
    BreakAfterPreCuesNotNegated(NoPeOrPneumothorax, 23, 21);
  }

  /** NoPeOrPneumothorax lower-cases to "no pe or pneumothorax; pneumonia present". */
  lemma NoPeOrPneumothoraxLower()
    ensures Lower(NoPeOrPneumothorax) == "no pe or pneumothorax; pneumonia present"
    ensures !IsBlank(NoPeOrPneumothorax)
  {
    var lower := "no pe or pneumothorax; pneumonia present";
    forall i | 0 <= i < |NoPeOrPneumothorax| ensures Lower(NoPeOrPneumothorax)[i] == lower[i] {
      if i >= 5 {
        assert NoPeOrPneumothorax[i] == lower[i];
      }
    }
    assert !IsWhiteSpace(NoPeOrPneumothorax[0]);
  }

  /** The lower-cased sentence opens with the whole word "no", and nothing before
    * "pneumothorax" breaks its scope or is a comma. */
  lemma NoPeOrPneumothoraxOpening(text: string)
    requires text == "no pe or pneumothorax; pneumonia present"
    ensures WordAt(text, PreNegationCues[0], 0)
    ensures !BreakBetween(text, 0, 9) && !BreakBetween(text, 0, 3)
    ensures forall k :: 0 <= k < 9 ==> text[k] != ','
  {
    assert WordAt(text, PreNegationCues[0], 0) by {
      assert text[0] == 'n' && text[1] == 'o';
      assert text[0..2] == PreNegationCues[0];
    }
    assert !BreakBetween(text, 0, 9) by {
      forall i | 0 <= i < 9
        ensures !IsPunctuationBreak(text[i]) && (WordStart(text, i) ==> !OpensTerminator(text[i], text[i + 1]))
      {
        assert i in {0, 1, 2, 3, 4, 5, 6, 7, 8};
      }
      NoBreakIn(text, 0, 9);
    }
    assert !BreakBetween(text, 0, 3);
  }

  /** No post-negation cue occurs in the lower-cased sentence from "pneumonia" on, the
    * semicolon at 21 is a scope break, and every whole-phrase pre-negation cue ending at
    * or before "pneumonia" ends before it. */
  lemma NoPeOrPneumothoraxAfterSemicolon(text: string)
    requires text == "no pe or pneumothorax; pneumonia present"
    ensures forall q, i :: 0 <= q < |PostNegationCues| && 23 <= i ==> !OccursAt(text, PostNegationCues[q], i)
    ensures BreakAt(text, 21)
    ensures forall q, i :: (0 <= q < |PreNegationCues| && WordAt(text, PreNegationCues[q], i)
      && i + |PreNegationCues[q]| <= 24) ==> i + |PreNegationCues[q]| <= 21
  {
    forall i | 23 <= i < 39 ensures !OpensPostCue(text[i], text[i + 1]) {
      assert i in {23, 24, 25, 26, 27, 28, 29, 30, 31, 32, 33, 34, 35, 36, 37, 38};
    }
    PostCuesAbsentFrom(text, 23);
    NoPeOrPneumothoraxPreCues(text);
  }

  /** Every whole-phrase pre-negation cue ending at or before "pneumonia" ends before the
    * semicolon. */
  lemma NoPeOrPneumothoraxPreCues(text: string)
    requires text == "no pe or pneumothorax; pneumonia present"
    ensures forall q, i :: (0 <= q < |PreNegationCues| && WordAt(text, PreNegationCues[q], i)
      && i + |PreNegationCues[q]| <= 24) ==> i + |PreNegationCues[q]| <= 21
  {
    NoPeOrPneumothoraxWordStarts(text);
    forall q, i | 0 <= q < |PreNegationCues| && WordAt(text, PreNegationCues[q], i) && i + |PreNegationCues[q]| <= 24
      ensures i + |PreNegationCues[q]| <= 21
    {
      WordAtOpening(text, PreNegationCues[q], i);
      assert i in {0, 3, 6, 9, 22, 23, 33};
      assert q in {0, 1, 2, 3, 4, 5, 6};
    }
  }

  /** The word starts of the lower-cased sentence. */
  lemma NoPeOrPneumothoraxWordStarts(text: string)
    requires text == "no pe or pneumothorax; pneumonia present"
    ensures forall i :: 0 <= i < |text| && WordStart(text, i) ==> i in {0, 3, 6, 9, 22, 23, 33}
  {
  }

  const PneumothoraxNotSeen := "Pneumothorax not seen"

  /** A post-negation cue after the match negates it. */
  lemma NotSeenNegates()
    ensures Negated(PneumothoraxNotSeen, 0)
  {
    var text := Lower(PneumothoraxNotSeen);
    var lower := "pneumothorax not seen";
    forall i | 0 <= i < |PneumothoraxNotSeen| ensures text[i] == lower[i] {
      if i >= 1 {
        assert PneumothoraxNotSeen[i] == lower[i];
      }
    }
    assert text == lower;
    assert !IsWhiteSpace(PneumothoraxNotSeen[0]);
    NotSeenInScope(text);
  }

  /** "not seen" follows at 13 with no scope break before it. */
  lemma NotSeenInScope(text: string)
    requires text == "pneumothorax not seen"
    ensures CueInScope(text, PostNegationCues[0], 0)
  {
    assert text[13..21] == PostNegationCues[0] by {
      assert text[13] == 'n' && text[14] == 'o' && text[15] == 't' && text[16] == ' ';
      assert text[17] == 's' && text[18] == 'e' && text[19] == 'e' && text[20] == 'n';
    }
    assert OccursAt(text, PostNegationCues[0], 13);
    forall i | 0 <= i < 14
      ensures !IsPunctuationBreak(text[i]) && (WordStart(text, i) ==> !OpensTerminator(text[i], text[i + 1]))
    {
      assert i in {0, 1, 2, 3, 4, 5, 6, 7, 8, 9, 10, 11, 12, 13};
    }
    NoBreakIn(text, 0, 14);
  }

  const FractureWithoutDisplacement := "Fracture without displacement"

  /** "without" after the match does not negate it. */
  lemma CueAfterMatchDoesNotNegate()
    ensures !Negated(FractureWithoutDisplacement, 0)
  {
    var text := Lower(FractureWithoutDisplacement);
    FractureWithoutDisplacementLower();
    NoPostCueIn(text);
    forall q, i | 0 <= q < |PreNegationCues| && i + |PreNegationCues[q]| <= 1 ensures !WordAt(text, PreNegationCues[q], i) {
      assert q in {0, 1, 2, 3, 4, 5, 6};
    }
    NoCueNotNegated(FractureWithoutDisplacement, 0);
  }

  /** FractureWithoutDisplacement lower-cases to "fracture without displacement". */
  lemma FractureWithoutDisplacementLower()
    ensures Lower(FractureWithoutDisplacement) == "fracture without displacement"
  {
    var lower := "fracture without displacement";
    forall i | 0 <= i < |FractureWithoutDisplacement| ensures Lower(FractureWithoutDisplacement)[i] == lower[i] {
      if i >= 1 {
        assert FractureWithoutDisplacement[i] == lower[i];
      }
    }
  }

  /** No post-negation cue occurs in "fracture without displacement". */
  lemma NoPostCueIn(text: string)
    requires text == "fracture without displacement"
    ensures forall q, i :: 0 <= q < |PostNegationCues| && 0 <= i ==> !OccursAt(text, PostNegationCues[q], i)
  {
    forall i | 0 <= i < 28 ensures !OpensPostCue(text[i], text[i + 1]) {
      assert i in {0, 1, 2, 3, 4, 5, 6, 7, 8, 9, 10, 11, 12, 13, 14, 15, 16, 17, 18, 19, 20, 21, 22, 23, 24, 25, 26, 27};
    }
    PostCuesAbsentFrom(text, 0);
  }
}
