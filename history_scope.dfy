/** The history scope resolver: decides whether a concept found at some position of a
  * sentence is historical ("history of", "prior", "status post" ...), the latest history
  * cue before it reaching it within its scope. */
module HistoryScope {
  import opened Text
  import opened ScopeText

  const HistoryCues := ["history of", "prior", "previous", "old", "chronic", "status post", "s/p", "known"]

  /** When the concept at m counts as historical: the sentence is not blank, m lies inside
    * it, and on the lower-cased sentence there is a history cue before the match, the
    * latest-starting one is taken, and no scope break lies between its end and the
    * match. */
  predicate Historical(sentence: string, m: int) {
    !IsBlank(sentence) && 0 <= m < |sentence| &&
    var text := Lower(sentence);
    var c := BestCue(text, HistoryCues, m);
    c.index >= 0 && !BreakBetween(text, c.index + c.length, m)
  }

  /** IsHistorical: rules out a blank sentence and a position outside it, finds the latest
    * history cue before the match and checks that no terminator cuts its scope. */
  method IsHistorical(sentenceText: string, matchIndex: int) returns (historical: bool)
    ensures historical == Historical(sentenceText, matchIndex)
  {
    if IsBlank(sentenceText) || matchIndex < 0 || matchIndex >= |sentenceText| {
      return false;
    }
    var lower := Lower(sentenceText);
    var cueIndex := -1;
    var cueLength: nat := 0;
    HistoryCuesChainSafe();
    for q := 0 to |HistoryCues|
      invariant CueChoice(cueIndex, cueLength) == BestCue(lower, HistoryCues[..q], matchIndex)
    {
      var cue := HistoryCues[q];
      var index := FindLastCueIndex(lower, cue, matchIndex);
      BestCueStep(lower, HistoryCues, q, matchIndex);
      if index >= 0 && index > cueIndex {
        cueIndex := index;
        cueLength := |cue|;
      }
    }
    assert HistoryCues[..|HistoryCues|] == HistoryCues;

    if cueIndex < 0 {
      return false;
    }
    HistoryChoiceWithin(lower, matchIndex);
    var terminated := HasTerminatorBetween(lower, cueIndex + cueLength, matchIndex);
    if terminated {
      return false;
    }
    return true;
  }

  /** Every history cue is chain-safe, so the backward search finds its last whole
    * occurrence. */
  lemma HistoryCuesChainSafe()
    ensures forall q :: 0 <= q < |HistoryCues| ==> ChainSafe(HistoryCues[q])
  {
    assert ChainSafe("history of");
    assert ChainSafe("chronic");
    assert ChainSafe("status post");
  }

  /** The chosen cue lies inside the text and ends at or before the match. */
  lemma HistoryChoiceWithin(text: string, m: int)
    requires BestCue(text, HistoryCues, m).index >= 0
    ensures var c := BestCue(text, HistoryCues, m);
      c.index + c.length <= |text| && c.index + c.length <= m + 1
  {
    BestCueChosen(text, HistoryCues, m);
  }

  // ---------------------------------------------------------------------
  // Properties of the verdict

  /** A historical concept has a whole-phrase history cue ending at or before the match,
    * with no scope break between the cue's end and the match. */
  lemma HistoricalHasCue(sentence: string, m: int)
    requires Historical(sentence, m)
    ensures var text := Lower(sentence);
      exists q, i :: 0 <= q < |HistoryCues| && WordAt(text, HistoryCues[q], i)
        && i + |HistoryCues[q]| <= m + 1 && !BreakBetween(text, i + |HistoryCues[q]|, m)
  {
    var text := Lower(sentence);
    var c := BestCue(text, HistoryCues, m);
    BestCueChosen(text, HistoryCues, m);
    var q :| 0 <= q < |HistoryCues| && ChosenAt(text, HistoryCues, m, q, c);
    assert WordAt(text, HistoryCues[q], c.index);
  }

  /** Without a whole-phrase history cue ending at or before the match the concept is not
    * historical. */
  lemma NoCueNotHistorical(sentence: string, m: int)
    requires forall q, i :: 0 <= q < |HistoryCues| && i + |HistoryCues[q]| <= m + 1 ==>
      !WordAt(Lower(sentence), HistoryCues[q], i)
    ensures !Historical(sentence, m)
  {
    if Historical(sentence, m) {
      HistoricalHasCue(sentence, m);
    }
  }

  /** The cue the verdict rests on starts no earlier than any whole-phrase history cue
    * ending at or before the match. */
  lemma LatestHistoryCueDecides(sentence: string, m: int, q: nat, i: int)
    requires q < |HistoryCues|
    requires WordAt(Lower(sentence), HistoryCues[q], i) && i + |HistoryCues[q]| <= m + 1
    ensures i <= BestCue(Lower(sentence), HistoryCues, m).index
  {
    assert i <= LastCueIndex(Lower(sentence), HistoryCues[q], m);
  }

  /** A whole-phrase history cue ending at or before the match makes the concept
    * historical when no scope break lies anywhere before the match. */
  lemma CueWithoutBreakHistorical(sentence: string, m: int, q: nat, i: int)
    requires !IsBlank(sentence) && 0 <= m < |sentence| && q < |HistoryCues|
    requires WordAt(Lower(sentence), HistoryCues[q], i) && i + |HistoryCues[q]| <= m + 1
    requires !BreakBetween(Lower(sentence), 0, m)
    ensures Historical(sentence, m)
  {
    LatestHistoryCueDecides(sentence, m, q, i);
    assert BestCue(Lower(sentence), HistoryCues, m).index >= 0;
  }

  // ---------------------------------------------------------------------
  // The resolver's test sentences (HistoryScopeResolverTests.cs)

  const HistoryOfCva := "History of CVA."
  const ChronicChanges := "Chronic microvascular changes."
  const PriorFracture := "Prior fracture noted."
  const AcuteFracture := "Acute fracture present."

  /** "History of" reaches "CVA" (position 11). */
  lemma HistoryOfReaches()
    ensures Historical(HistoryOfCva, 11)
  {
    var text := Lower(HistoryOfCva);
    HistoryOfCvaLower();
    HistoryOfCvaCue(text);
    CueWithoutBreakHistorical(HistoryOfCva, 11, 0, 0);
  }

  /** HistoryOfCva lower-cases to "history of cva.". */
  lemma HistoryOfCvaLower()
    ensures Lower(HistoryOfCva) == "history of cva."
    ensures !IsBlank(HistoryOfCva)
  {
    var lower := "history of cva.";
    forall i | 0 <= i < |HistoryOfCva| ensures Lower(HistoryOfCva)[i] == lower[i] {
      if i != 0 && i != 11 && i != 12 && i != 13 {
        assert HistoryOfCva[i] == lower[i];
      }
    }
    assert !IsWhiteSpace(HistoryOfCva[0]);
  }

  /** "history of" opens the lower-cased sentence, and nothing before "cva" breaks its
    * scope. */
  lemma HistoryOfCvaCue(text: string)
    requires text == "history of cva."
    ensures WordAt(text, HistoryCues[0], 0) && !BreakBetween(text, 0, 11)
  {
    assert text[0..10] == HistoryCues[0] by {
      assert text[0] == 'h' && text[1] == 'i' && text[2] == 's' && text[3] == 't' && text[4] == 'o';
      assert text[5] == 'r' && text[6] == 'y' && text[7] == ' ' && text[8] == 'o' && text[9] == 'f';
    }
    assert text[10] == ' ';
    forall i | 0 <= i < 11
      ensures !IsPunctuationBreak(text[i]) && (WordStart(text, i) ==> !OpensTerminator(text[i], text[i + 1]))
    {
      assert i in {0, 1, 2, 3, 4, 5, 6, 7, 8, 9, 10};
    }
    NoBreakIn(text, 0, 11);
  }

  /** "Chronic" reaches "changes" (position 22) across "microvascular". */
  lemma ChronicReaches()
    ensures Historical(ChronicChanges, 22)
  {
    var text := Lower(ChronicChanges);
    ChronicChangesLower();
    ChronicChangesCue(text);
    CueWithoutBreakHistorical(ChronicChanges, 22, 4, 0);
  }

  /** ChronicChanges lower-cases to "chronic microvascular changes.". */
  lemma ChronicChangesLower()
    ensures Lower(ChronicChanges) == "chronic microvascular changes."
    ensures !IsBlank(ChronicChanges)
  {
    var lower := "chronic microvascular changes.";
    forall i | 0 <= i < |ChronicChanges| ensures Lower(ChronicChanges)[i] == lower[i] {
      if i != 0 {
        assert ChronicChanges[i] == lower[i];
      }
    }
    assert !IsWhiteSpace(ChronicChanges[0]);
  }

  /** "chronic" opens the lower-cased sentence, and nothing before "changes" breaks its
    * scope. */
  lemma ChronicChangesCue(text: string)
    requires text == "chronic microvascular changes."
    ensures WordAt(text, HistoryCues[4], 0) && !BreakBetween(text, 0, 22)
  {
    assert text[0..7] == HistoryCues[4] by {
      assert text[0] == 'c' && text[1] == 'h' && text[2] == 'r' && text[3] == 'o';
      assert text[4] == 'n' && text[5] == 'i' && text[6] == 'c';
    }
    assert text[7] == ' ';
    forall i | 0 <= i < 22
      ensures !IsPunctuationBreak(text[i]) && (WordStart(text, i) ==> !OpensTerminator(text[i], text[i + 1]))
    {
      assert i in {0, 1, 2, 3, 4, 5, 6, 7, 8, 9, 10, 11, 12, 13, 14, 15, 16, 17, 18, 19, 20, 21};
    }
    NoBreakIn(text, 0, 22);
  }

  /** "Prior" reaches "fracture" (position 6). */
  lemma PriorReaches()
    ensures Historical(PriorFracture, 6)
  {
    var text := Lower(PriorFracture);
    PriorFractureLower();
    PriorFractureCue(text);
    CueWithoutBreakHistorical(PriorFracture, 6, 1, 0);
  }

  /** PriorFracture lower-cases to "prior fracture noted.". */
  lemma PriorFractureLower()
    ensures Lower(PriorFracture) == "prior fracture noted."
    ensures !IsBlank(PriorFracture)
  {
    var lower := "prior fracture noted.";
    forall i | 0 <= i < |PriorFracture| ensures Lower(PriorFracture)[i] == lower[i] {
      if i != 0 {
        assert PriorFracture[i] == lower[i];
      }
    }
    assert !IsWhiteSpace(PriorFracture[0]);
  }

  /** "prior" opens the lower-cased sentence, and nothing before "fracture" breaks its
    * scope. */
  lemma PriorFractureCue(text: string)
    requires text == "prior fracture noted."
    ensures WordAt(text, HistoryCues[1], 0) && !BreakBetween(text, 0, 6)
  {
    assert text[0..5] == HistoryCues[1] by {
      assert text[0] == 'p' && text[1] == 'r' && text[2] == 'i' && text[3] == 'o' && text[4] == 'r';
    }
    assert text[5] == ' ';
    forall i | 0 <= i < 6
      ensures !IsPunctuationBreak(text[i]) && (WordStart(text, i) ==> !OpensTerminator(text[i], text[i + 1]))
    {
      assert i in {0, 1, 2, 3, 4, 5};
    }
    NoBreakIn(text, 0, 6);
  }

  /** Without a history cue before it, "fracture" (position 6) is not historical. */
  lemma AcuteNotHistorical()
    ensures !Historical(AcuteFracture, 6)
  {
    var text := Lower(AcuteFracture);
    AcuteFractureLower();
    AcuteFractureNoCue(text);
    NoCueNotHistorical(AcuteFracture, 6);
  }

  /** AcuteFracture lower-cases to "acute fracture present.". */
  lemma AcuteFractureLower()
    ensures Lower(AcuteFracture) == "acute fracture present."
    ensures !IsBlank(AcuteFracture)
  {
    var lower := "acute fracture present.";
    forall i | 0 <= i < |AcuteFracture| ensures Lower(AcuteFracture)[i] == lower[i] {
      if i != 0 {
        assert AcuteFracture[i] == lower[i];
      }
    }
    assert !IsWhiteSpace(AcuteFracture[0]);
  }

  /** No whole-phrase history cue ends at or before "fracture": the only word start before
    * it is "acute". */
  lemma AcuteFractureNoCue(text: string)
    requires text == "acute fracture present."
    ensures forall q, i :: 0 <= q < |HistoryCues| && i + |HistoryCues[q]| <= 7 ==> !WordAt(text, HistoryCues[q], i)
  {
    forall q, i | 0 <= q < |HistoryCues| && i + |HistoryCues[q]| <= 7 && WordAt(text, HistoryCues[q], i) ensures false {
      WordAtOpening(text, HistoryCues[q], i);
    }
  }
}
