/** The text searches the negation and history scope resolvers share: ordinal substring
  * search forwards and backwards, whole-phrase occurrences, the scope terminators, and the
  * choice of the latest-starting cue.  Both resolvers carry identical copies of these
  * helpers; the model defines them once. */
module ScopeText {
  import opened Text

  /** The outcome of a .NET call that may raise an exception. */
  datatype Outcome<T> = Returned(value: T) | Threw

  /** p occurs in text at position i. */
  predicate OccursAt(text: string, p: string, i: int) {
    0 <= i && i + |p| <= |text| && text[i..i + |p|] == p
  }

  /** string.IndexOf(p, from, StringComparison.Ordinal): the first occurrence at or after
    * from, or -1. */
  function IndexOf(text: string, p: string, from: nat): (r: int)
    requires from <= |text|
    ensures r == -1 || (from <= r && OccursAt(text, p, r))
    ensures r == -1 ==> forall i :: from <= i ==> !OccursAt(text, p, i)
    ensures r != -1 ==> forall i :: from <= i < r ==> !OccursAt(text, p, i)
    decreases |text| - from
  {
    if OccursAt(text, p, from) then from
    else if from == |text| then -1
    else IndexOf(text, p, from + 1)
  }

  /** The last occurrence of p starting at or before hi, or -1. */
  function LastOccurrence(text: string, p: string, hi: int): (r: int)
    ensures r == -1 || (0 <= r <= hi && OccursAt(text, p, r))
    ensures forall i :: r < i <= hi ==> !OccursAt(text, p, i)
    decreases hi + 1
  {
    if hi < 0 then -1
    else if OccursAt(text, p, hi) then hi
    else LastOccurrence(text, p, hi - 1)
  }

  /** string.LastIndexOf(p, startIndex, StringComparison.Ordinal) for a non-empty p: the
    * last occurrence that ends at or before startIndex.  A negative startIndex raises
    * ArgumentOutOfRangeException, except -1 on the empty string. */
  function LastIndexOf(text: string, p: string, startIndex: int): Outcome<int>
    requires |p| > 0 && startIndex < |text|
  {
    if startIndex >= 0 then Returned(LastOccurrence(text, p, startIndex + 1 - |p|))
    else if |text| == 0 && startIndex == -1 then Returned(-1)
    else Threw
  }

  /** IsPhraseBoundary: neither the character before the phrase nor the one after it is a
    * letter or a digit, the ends of the text counting as spaces. */
  predicate IsPhraseBoundary(text: string, cue: string, index: int)
    requires 0 <= index <= |text|
  {
    var before := if index == 0 then ' ' else text[index - 1];
    var afterIndex := index + |cue|;
    var after := if afterIndex >= |text| then ' ' else text[afterIndex];
    !IsLetterOrDigit(before) && !IsLetterOrDigit(after)
  }

  /** The phrase occurs at i as a whole word. */
  predicate WordAt(text: string, w: string, i: int) {
    OccursAt(text, w, i) && IsPhraseBoundary(text, w, i)
  }

  /** The first whole-word occurrence of w at or after i and before end, or -1. */
  function FirstWordFrom(text: string, w: string, i: nat, end: int): (r: int)
    ensures r == -1 || (i <= r < end && WordAt(text, w, r))
    ensures r == -1 ==> forall j :: i <= j < end ==> !WordAt(text, w, j)
    ensures r != -1 ==> forall j :: i <= j < r ==> !WordAt(text, w, j)
    decreases |text| + 1 - i
  {
    if i >= end || i > |text| then -1
    else if WordAt(text, w, i) then i
    else FirstWordFrom(text, w, i + 1, end)
  }

  /** The last whole-word occurrence of w starting at or before hi, or -1. */
  function LastWordFrom(text: string, w: string, hi: int): (r: int)
    ensures r == -1 || (0 <= r <= hi && WordAt(text, w, r))
    ensures forall j :: r < j <= hi ==> !WordAt(text, w, j)
    decreases hi + 1
  {
    if hi < 0 then -1
    else if WordAt(text, w, hi) then hi
    else LastWordFrom(text, w, hi - 1)
  }

  /** IndexOfWord: steps through the occurrences of the word from start on and returns the
    * first that starts before end and stands as a whole word, or -1. */
  method IndexOfWord(text: string, word: string, start: nat, end: int) returns (r: int)
    requires start <= |text| && |word| > 0
    ensures r == FirstWordFrom(text, word, start, end)
  {
    ghost var from := start;
    var index := IndexOf(text, word, start);
    while index >= 0 && index < end
      invariant start <= from <= |text| && index == IndexOf(text, word, from)
      invariant forall j :: start <= j < from ==> !WordAt(text, word, j)
      decreases |text| - from
    {
      var before := if index == 0 then ' ' else text[index - 1];
      var afterIndex := index + |word|;
      var after := if afterIndex >= |text| then ' ' else text[afterIndex];
      if !IsLetterOrDigit(before) && !IsLetterOrDigit(after) {
        assert WordAt(text, word, index);
        FirstWordIs(text, word, start, end, index);
        return index;
      }
      assert !WordAt(text, word, index);
      from := index + 1;
      index := IndexOf(text, word, index + 1);
    }
    r := -1;
    FirstWordIs(text, word, start, end, r);
  }

  /** The first whole-word occurrence is the only one with no whole-word occurrence before
    * it. */
  lemma FirstWordIs(text: string, w: string, start: nat, end: int, r: int)
    requires r == -1 ==> forall j :: start <= j < end ==> !WordAt(text, w, j)
    requires r != -1 ==> start <= r < end && WordAt(text, w, r) && forall j :: start <= j < r ==> !WordAt(text, w, j)
    ensures FirstWordFrom(text, w, start, end) == r
  {
  }

  // ---------------------------------------------------------------------
  // The backward cue search

  /** The overlaps of a cue with itself leave a letter or a digit just after the earlier
    * copy: writing the cue again d characters later either clashes with its first two
    * characters or puts a letter or digit where the earlier copy ends. */
  predicate ChainSafe(cue: string) {
    forall d {:trigger cue[d]} :: 0 < d < |cue| ==>
      cue[d] != cue[0] || (d + 1 < |cue| && cue[d + 1] != cue[1]) || IsLetterOrDigit(cue[|cue| - d])
  }

  /** An occurrence that overlaps a later one from the left is never a whole phrase, for a
    * chain-safe cue: these are the occurrences the backward search steps over. */
  lemma SkippedNotWords(text: string, cue: string, index: int, j: int)
    requires ChainSafe(cue) && OccursAt(text, cue, index)
    requires index - |cue| < j < index
    ensures !WordAt(text, cue, j)
  {
    if OccursAt(text, cue, j) {
      var d := index - j;
      var later := text[index..index + |cue|];
      var earlier := text[j..j + |cue|];
      assert later == cue && earlier == cue;
      assert cue[d] == earlier[d] == text[index] == later[0] == cue[0];
      if d + 1 < |cue| {
        assert cue[d + 1] == earlier[d + 1] == text[index + 1] == later[1] == cue[1];
      }
      assert cue[d] != cue[0] || (d + 1 < |cue| && cue[d + 1] != cue[1]) || IsLetterOrDigit(cue[|cue| - d]);
      assert text[j + |cue|] == later[|cue| - d];
    }
  }

  /** One step of the backward search: past an occurrence that is not a whole phrase,
    * no whole phrase starts after the next place the search looks. */
  lemma StepBack(text: string, cue: string, hi: int, top: int)
    requires ChainSafe(cue) && hi <= top
    requires forall j :: hi < j <= top ==> !WordAt(text, cue, j)
    requires LastOccurrence(text, cue, hi) >= 0
    requires !IsPhraseBoundary(text, cue, LastOccurrence(text, cue, hi))
    ensures forall j :: LastOccurrence(text, cue, hi) - |cue| < j <= top ==> !WordAt(text, cue, j)
  {
    var index := LastOccurrence(text, cue, hi);
    forall j | index - |cue| < j < index ensures !WordAt(text, cue, j) {
      SkippedNotWords(text, cue, index, j);
    }
  }

  /** FindLastCueIndex, as it is meant to work: walks back through the occurrences of the
    * cue that end at or before the match and returns the first that stands as a whole
    * phrase, or -1; the search stops at the start of the text instead of asking for an
    * occurrence before position 0. */
  method FindLastCueIndex(text: string, cue: string, matchIndex: int) returns (r: int)
    requires 0 <= matchIndex < |text| && |cue| > 0
    ensures r == -1 || (0 <= r && r + |cue| <= matchIndex + 1 && WordAt(text, cue, r))
    ensures ChainSafe(cue) ==> r == LastWordFrom(text, cue, matchIndex + 1 - |cue|)
  {
    ghost var top := matchIndex + 1 - |cue|;
    ghost var hi := top;
    var index := LastIndexOf(text, cue, matchIndex).value;
    while index >= 0
      invariant hi <= top && index == LastOccurrence(text, cue, hi)
      invariant ChainSafe(cue) ==> forall j :: hi < j <= top ==> !WordAt(text, cue, j)
      decreases index + 1
    {
      if IsPhraseBoundary(text, cue, index) {
        return index;
      }
      if index == 0 {
        hi := -1;
        index := -1;
      } else {
        if ChainSafe(cue) {
          StepBack(text, cue, hi, top);
        }
        hi := index - |cue|;
        index := LastIndexOf(text, cue, index - 1).value;
      }
    }
    r := -1;
  }

  /** FindLastCueIndex exactly as the resolvers write it: after an occurrence at position 0
    * that is not a whole phrase it asks for the last occurrence ending at or before -1,
    * which raises ArgumentOutOfRangeException. */
  function FindLastCueIndexAsWritten(text: string, cue: string, matchIndex: int): Outcome<int>
    requires 0 <= matchIndex < |text| && |cue| > 0
  {
    SearchAsWritten(text, cue, LastIndexOf(text, cue, matchIndex).value)
  }

  /** The loop of the written search, from the occurrence at index. */
  function SearchAsWritten(text: string, cue: string, index: int): Outcome<int>
    requires index < |text| && |cue| > 0
    decreases index + 1
  {
    if index < 0 then Returned(-1)
    else if IsPhraseBoundary(text, cue, index) then Returned(index)
    else match LastIndexOf(text, cue, index - 1)
      case Threw => Threw
      case Returned(next) => SearchAsWritten(text, cue, next)
  }

  /** Where the written search returns, it returns what the search is meant to return; it
    * throws only after reaching an occurrence at position 0 that is not a whole phrase. */
  lemma AsWrittenAgrees(text: string, cue: string, matchIndex: int)
    requires 0 <= matchIndex < |text| && |cue| > 0
    ensures var o := FindLastCueIndexAsWritten(text, cue, matchIndex);
      (o.Returned? && ChainSafe(cue) ==> o.value == LastWordFrom(text, cue, matchIndex + 1 - |cue|))
      && (o.Threw? ==> OccursAt(text, cue, 0) && !IsPhraseBoundary(text, cue, 0))
  {
    SearchAsWrittenFacts(text, cue, matchIndex + 1 - |cue|, matchIndex + 1 - |cue|);
  }

  /** The last whole-word occurrence is the only one with none after it. */
  lemma LastWordIs(text: string, w: string, hi: int, r: int)
    requires r == -1 ==> forall j :: j <= hi ==> !WordAt(text, w, j)
    requires r != -1 ==> 0 <= r <= hi && WordAt(text, w, r) && forall j :: r < j <= hi ==> !WordAt(text, w, j)
    ensures LastWordFrom(text, w, hi) == r
  {
  }

  lemma {:induction false} SearchAsWrittenFacts(text: string, cue: string, hi: int, top: int)
    requires |cue| > 0 && hi <= top
    requires ChainSafe(cue) ==> forall j :: hi < j <= top ==> !WordAt(text, cue, j)
    ensures LastOccurrence(text, cue, hi) < |text|
    ensures var o := SearchAsWritten(text, cue, LastOccurrence(text, cue, hi));
      (o.Returned? && ChainSafe(cue) ==> o.value == LastWordFrom(text, cue, top))
      && (o.Threw? ==> OccursAt(text, cue, 0) && !IsPhraseBoundary(text, cue, 0))
    decreases hi + 1
  {
    var index := LastOccurrence(text, cue, hi);
    if index >= 0 && !IsPhraseBoundary(text, cue, index) && index > 0 {
      if ChainSafe(cue) {
        StepBack(text, cue, hi, top);
      }
      SearchAsWrittenFacts(text, cue, index - |cue|, top);
      var next := LastOccurrence(text, cue, index - |cue|);
      assert LastIndexOf(text, cue, index - 1) == Returned(next);
      assert SearchAsWritten(text, cue, index) == SearchAsWritten(text, cue, next);
    } else if ChainSafe(cue) && index == -1 {
      LastWordIs(text, cue, top, -1);
    } else if ChainSafe(cue) && index >= 0 && IsPhraseBoundary(text, cue, index) {
      LastWordIs(text, cue, top, index);
    }
  }

  /** The written search throws on "nodule in lung" with the cue "no" and a match at
    * position 10: the only occurrence of "no" is at position 0, inside "nodule". */
  lemma AsWrittenThrows()
    ensures FindLastCueIndexAsWritten(NoduleInLung, "no", 10).Threw?
  {
    var text := NoduleInLung;
    LastOccurrenceOnlyAtStart(text, "no", 9);
    assert LastIndexOf(text, "no", 10) == Returned(0);
    assert text[2] == 'd';
    assert !IsPhraseBoundary(text, "no", 0);
    assert LastIndexOf(text, "no", -1) == Threw;
    assert SearchAsWritten(text, "no", 0) == Threw;
  }

  const NoduleInLung := "nodule in lung"

  /** In "nodule in lung", "no" occurs only at position 0. */
  lemma LastOccurrenceOnlyAtStart(text: string, p: string, hi: int)
    requires text == NoduleInLung && p == "no" && hi == 9
    ensures LastOccurrence(text, p, hi) == 0
  {
    assert text[0..2] == p;
    assert text[9] == ' ' && text[8] == 'n' && text[7] == 'i' && text[6] == ' ' && text[5] == 'e';
    assert text[4] == 'l' && text[3] == 'u' && text[2] == 'd' && text[1] == 'o';
    assert LastOccurrence(text, p, 9) == LastOccurrence(text, p, 8);
    assert LastOccurrence(text, p, 8) == LastOccurrence(text, p, 7);
    assert LastOccurrence(text, p, 7) == LastOccurrence(text, p, 6);
    assert LastOccurrence(text, p, 6) == LastOccurrence(text, p, 5);
    assert LastOccurrence(text, p, 5) == LastOccurrence(text, p, 4);
    assert LastOccurrence(text, p, 4) == LastOccurrence(text, p, 3);
    assert LastOccurrence(text, p, 3) == LastOccurrence(text, p, 2);
    assert LastOccurrence(text, p, 2) == LastOccurrence(text, p, 1);
    assert LastOccurrence(text, p, 1) == LastOccurrence(text, p, 0);
  }

  // ---------------------------------------------------------------------
  // Scope terminators

  /** The words that end a cue's scope, shared by both resolvers. */
  const ScopeTerminators := ["but", "however", "except", "although", "yet"]

  /** '.', ';' and ':' end a scope too. */
  predicate IsPunctuationBreak(c: char) {
    c == '.' || c == ';' || c == ':'
  }

  /** A scope ends at position i: a punctuation break, or a terminator word. */
  predicate BreakAt(text: string, i: int) {
    0 <= i < |text| &&
    (IsPunctuationBreak(text[i]) || exists q :: 0 <= q < |ScopeTerminators| && WordAt(text, ScopeTerminators[q], i))
  }

  /** Some scope break starts in [start, end). */
  predicate BreakBetween(text: string, start: int, end: int) {
    exists i :: start <= i < end && BreakAt(text, i)
  }

  /** HasTerminatorBetween: looks for a punctuation break in [start, end), then for each
    * terminator word as a whole word starting there. */
  method HasTerminatorBetween(text: string, start: nat, end: int) returns (b: bool)
    requires start <= |text|
    ensures b == BreakBetween(text, start, end)
  {
    var index := start;
    while index < end && index < |text|
      invariant start <= index <= |text|
      invariant forall i :: start <= i < index ==> !IsPunctuationBreak(text[i])
    {
      if IsPunctuationBreak(text[index]) {
        assert BreakAt(text, index);
        return true;
      }
      index := index + 1;
    }
    for k := 0 to |ScopeTerminators|
      invariant forall q, i :: 0 <= q < k && start <= i < end ==> !WordAt(text, ScopeTerminators[q], i)
    {
      var w := IndexOfWord(text, ScopeTerminators[k], start, end);
      if w >= 0 {
        assert BreakAt(text, w);
        return true;
      }
    }
    b := false;
    forall i | start <= i < end ensures !BreakAt(text, i) {
      if i < |text| {
        assert !IsPunctuationBreak(text[i]);
      }
    }
  }

  // ---------------------------------------------------------------------
  // Choosing among cues

  /** The cue a resolver settles on: where it starts and how long it is. */
  datatype CueChoice = CueChoice(index: int, length: nat)

  /** The last whole-phrase occurrence of the cue that ends at or before the match: what
    * FindLastCueIndex returns for a chain-safe cue. */
  function LastCueIndex(text: string, cue: string, matchIndex: int): int {
    LastWordFrom(text, cue, matchIndex + 1 - |cue|)
  }

  /** The latest-starting cue of the list; on a tie the one listed first; (-1, 0) when no
    * cue occurs. */
  function BestCue(text: string, cues: seq<string>, matchIndex: int): (r: CueChoice)
    ensures r.index >= -1
    ensures forall k :: 0 <= k < |cues| ==> LastCueIndex(text, cues[k], matchIndex) <= r.index
    ensures r.index == -1 ==> r.length == 0
    decreases |cues|
  {
    if cues == [] then CueChoice(-1, 0)
    else
      var prev := BestCue(text, cues[..|cues| - 1], matchIndex);
      var last := cues[|cues| - 1];
      var i := LastCueIndex(text, last, matchIndex);
      if i >= 0 && i > prev.index then CueChoice(i, |last|) else prev
  }

  /** One more cue: it replaces the choice so far exactly when it starts later. */
  lemma BestCueStep(text: string, cues: seq<string>, k: nat, matchIndex: int)
    requires k < |cues|
    ensures var prev := BestCue(text, cues[..k], matchIndex);
      var i := LastCueIndex(text, cues[k], matchIndex);
      BestCue(text, cues[..k + 1], matchIndex) ==
        if i >= 0 && i > prev.index then CueChoice(i, |cues[k]|) else prev
  {
    assert cues[..k + 1][..k] == cues[..k];
  }

  /** The cue chosen is one of the cues, at its last occurrence before the match, and no
    * cue listed before it starts as late: the latest-starting cue wins, the first listed
    * on a tie. */
  lemma {:induction false} BestCueChosen(text: string, cues: seq<string>, matchIndex: int)
    ensures var r := BestCue(text, cues, matchIndex);
      r.index >= 0 ==> exists k :: 0 <= k < |cues| && ChosenAt(text, cues, matchIndex, k, r)
    decreases |cues|
  {
    var r := BestCue(text, cues, matchIndex);
    if cues != [] && r.index >= 0 {
      var init := cues[..|cues| - 1];
      var prev := BestCue(text, init, matchIndex);
      var n := |cues| - 1;
      assert forall k :: 0 <= k < |init| ==> init[k] == cues[k];
      if r == prev && LastCueIndex(text, cues[n], matchIndex) <= prev.index {
        BestCueChosen(text, init, matchIndex);
        var k :| 0 <= k < |init| && ChosenAt(text, init, matchIndex, k, prev);
        assert ChosenAt(text, cues, matchIndex, k, r);
      } else {
        assert ChosenAt(text, cues, matchIndex, n, r);
      }
    }
  }

  /** The choice is the occurrence of cue k, and every cue listed before k starts earlier. */
  predicate ChosenAt(text: string, cues: seq<string>, matchIndex: int, k: nat, r: CueChoice)
    requires k < |cues|
  {
    r.index == LastCueIndex(text, cues[k], matchIndex) && r.length == |cues[k]|
    && forall k' :: 0 <= k' < k ==> LastCueIndex(text, cues[k'], matchIndex) < r.index
  }

  // ---------------------------------------------------------------------
  // Reading cues and breaks off a given text

  /** Position i can begin a whole word: it is the start of the text, or the character
    * before it is not a letter or a digit. */
  predicate WordStart(text: string, i: int) {
    i == 0 || (0 < i <= |text| && !IsLetterOrDigit(text[i - 1]))
  }

  /** An occurrence of a phrase of two or more characters begins with its first two. */
  lemma OccursAtOpening(text: string, p: string, i: int)
    requires |p| >= 2 && OccursAt(text, p, i)
    ensures 0 <= i && i + 1 < |text| && text[i] == p[0] && text[i + 1] == p[1]
  {
    assert text[i..i + |p|][0] == p[0] && text[i..i + |p|][1] == p[1];
  }

  /** A whole-word occurrence begins at a word start. */
  lemma WordAtOpening(text: string, w: string, i: int)
    requires |w| >= 2 && WordAt(text, w, i)
    ensures WordStart(text, i) && i + 1 < |text| && text[i] == w[0] && text[i + 1] == w[1]
  {
    OccursAtOpening(text, w, i);
  }

  /** The characters a and b are the first two letters of a scope terminator ("but",
    * "however", "except", "although", "yet"). */
  predicate OpensTerminator(a: char, b: char) {
    (a == 'b' && b == 'u') || (a == 'h' && b == 'o') || (a == 'e' && b == 'x')
    || (a == 'a' && b == 'l') || (a == 'y' && b == 'e')
  }

  /** No scope break lies in [start, end) when no character there is a punctuation break
    * and no word start there opens a terminator. */
  lemma NoBreakIn(text: string, start: int, end: int)
    requires forall i :: start <= i < end && 0 <= i < |text| ==> !IsPunctuationBreak(text[i])
    requires forall i :: start <= i < end && 0 <= i && i + 1 < |text| && WordStart(text, i) ==>
      !OpensTerminator(text[i], text[i + 1])
    ensures !BreakBetween(text, start, end)
  {
    forall i | start <= i < end && BreakAt(text, i) ensures false {
      var q :| 0 <= q < |ScopeTerminators| && WordAt(text, ScopeTerminators[q], i);
      WordAtOpening(text, ScopeTerminators[q], i);
      assert q in {0, 1, 2, 3, 4};
      assert OpensTerminator(text[i], text[i + 1]);
    }
  }
}
