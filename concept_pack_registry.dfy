/** The concept pack registry: which packs of concept patterns apply to a modality and a
  * body region, and the patterns they contribute, the first pack in applied order
  * winning on a repeated "Type|Normalized" key. */
module ConceptPacks {
  import opened Text
  import opened Sequences

  /** A concept pattern: the normalized concept name and its type.  Its regular expression
    * is left out: matching a report against it is not part of this model. */
  datatype ConceptPattern = ConceptPattern(normalized: string, conceptType: string)

  /** A registered pack: its name and its patterns. */
  datatype Pack = Pack(name: string, patterns: seq<ConceptPattern>)

  datatype ConceptPackResolution = ConceptPackResolution(patterns: seq<ConceptPattern>, appliedPacks: seq<string>)

  const Global := "GLOBAL"
  const CtCommon := "CT_COMMON"
  const CtChest := "CT_CHEST"
  const CtAbdomen := "CT_ABDOMEN"
  const CtAbdPelvis := "CT_ABD_PELVIS"
  const MriCommon := "MRI_COMMON"
  const MriBrain := "MRI_BRAIN"
  const UsCommon := "US_COMMON"
  const UsAbdomen := "US_ABDOMEN"

  /** A modality or body region as Resolve compares it: null as empty, trimmed and
    * upper-cased. */
  function Normalize(s: string): string {
    Upper(Trim(s))
  }

  /** The packs applied for a modality and a body region, in the order they are tried. */
  function AppliedPacks(modality: string, bodyRegion: string): (r: seq<string>)
    ensures 1 <= |r| <= 3 && r[0] == Global
  {
    PacksFor(Normalize(modality), Normalize(bodyRegion))
  }

  /** The packs for a normalized modality m and body region b: GLOBAL, then the
    * modality's common pack, then its region pack. */
  function PacksFor(m: string, b: string): (r: seq<string>)
    ensures 1 <= |r| <= 3 && r[0] == Global
  {
    if m == "CT" then
      [Global, CtCommon] + (if b == "CHEST" then [CtChest]
                            else if b == "ABDOMEN" then [CtAbdomen]
                            else if b == "ABD_PELVIS" then [CtAbdPelvis]
                            else [])
    else if m == "MRI" then
      [Global, MriCommon] + (if b == "BRAIN_HEAD" then [MriBrain] else [])
    else if m == "US" then
      [Global, UsCommon] + (if b == "ABDOMEN" then [UsAbdomen] else [])
    else
      [Global]
  }

  /** The position of the first pack registered under the name, compared ignoring case,
    * or |packs| when there is none. */
  function PackIndex(packs: seq<Pack>, name: string): (i: nat)
    ensures i <= |packs|
    ensures i < |packs| ==> EqIgnoreCase(packs[i].name, name)
    ensures forall k :: 0 <= k < i ==> !EqIgnoreCase(packs[k].name, name)
  {
    if packs == [] then 0
    else if EqIgnoreCase(packs[0].name, name) then 0
    else 1 + PackIndex(packs[1..], name)
  }

  /** FirstOrDefault on the pack name: the patterns of the first pack registered under the
    * name, or nothing. */
  function FindPack(packs: seq<Pack>, name: string): (r: Option<seq<ConceptPattern>>)
    ensures r.None? <==> forall k :: 0 <= k < |packs| ==> !EqIgnoreCase(packs[k].name, name)
    ensures r.Some? ==> r.value == packs[PackIndex(packs, name)].patterns
  {
    var i := PackIndex(packs, name);
    if i < |packs| then Some(packs[i].patterns) else None
  }

  /** The patterns a pack name contributes: none when no pack is registered under it. */
  function PatternsOf(packs: seq<Pack>, name: string): seq<ConceptPattern> {
    match FindPack(packs, name)
    case None => []
    case Some(ps) => ps
  }

  /** The patterns of the applied packs, pack after pack, in the order they are visited. */
  function AppliedPatterns(packs: seq<Pack>, applied: seq<string>): seq<ConceptPattern> {
    FlatMap(applied, PackPatterns(packs))
  }

  function PackPatterns(packs: seq<Pack>): string -> seq<ConceptPattern> {
    name => PatternsOf(packs, name)
  }

  /** The dictionary key of a pattern, "Type|Normalized", folded as the case-insensitive
    * comparer compares it. */
  function Key(p: ConceptPattern): string {
    Lower(p.conceptType + "|" + p.normalized)
  }

  /** The resolution Resolve returns: the applied packs, and their patterns with the
    * first of each key kept. */
  function Resolution(packs: seq<Pack>, modality: string, bodyRegion: string): ConceptPackResolution {
    var applied := AppliedPacks(modality, bodyRegion);
    ConceptPackResolution(FirstByKey(AppliedPatterns(packs, applied), Key), applied)
  }

  /** Resolve: the packs for the modality and body region, and the patterns of the packs
    * registered under those names, deduplicated on their key with the first one kept. */
  method Resolve(packs: seq<Pack>, modality: string, bodyRegion: string) returns (r: ConceptPackResolution)
    ensures r.appliedPacks == AppliedPacks(modality, bodyRegion)
    ensures r.patterns == FirstByKey(AppliedPatterns(packs, r.appliedPacks), Key)
    ensures r == Resolution(packs, modality, bodyRegion)
  {
    var applied := AppliedPacks(modality, bodyRegion);
    var resolved := ResolvePatterns(packs, applied);
    r := ConceptPackResolution(resolved, applied);
  }

  /** Resolve's outer loop: visits the applied names in order and adds the patterns of the
    * pack registered under each. */
  method ResolvePatterns(packs: seq<Pack>, applied: seq<string>) returns (resolved: seq<ConceptPattern>)
    ensures resolved == FirstByKey(AppliedPatterns(packs, applied), Key)
  {
    resolved := [];
    var seen: set<string> := {};
    for i := 0 to |applied|
      invariant resolved == FirstByKey(FlatMapUpTo(applied, i, PackPatterns(packs)), Key)
      invariant seen == KeySet(resolved, Key)
    {
      ghost var before := FlatMapUpTo(applied, i, PackPatterns(packs));
      var pack := FindPack(packs, applied[i]);
      PackStep(packs, applied, i, pack);
      if pack.None? {
        assert FlatMapUpTo(applied, i + 1, PackPatterns(packs)) == before;
        continue;
      }
      assert FlatMapUpTo(applied, i + 1, PackPatterns(packs)) == before + pack.value;
      resolved, seen := AddPatterns(before, resolved, seen, pack.value);
    }
  }

  lemma PackStep(packs: seq<Pack>, applied: seq<string>, i: nat, pack: Option<seq<ConceptPattern>>)
    requires i < |applied| && pack == FindPack(packs, applied[i])
    ensures FlatMapUpTo(applied, i + 1, PackPatterns(packs)) ==
      FlatMapUpTo(applied, i, PackPatterns(packs)) + (if pack.None? then [] else pack.value)
  {
  }

  lemma AddStep(before: seq<ConceptPattern>, ps: seq<ConceptPattern>, j: nat)
    requires j < |ps|
    ensures var r := FirstByKey(before + ps[..j], Key);
      FirstByKey(before + ps[..j + 1], Key) == if Key(ps[j]) in KeySet(r, Key) then r else r + [ps[j]]
  {
    assert before + ps[..j + 1] == (before + ps[..j]) + [ps[j]];
    FirstByKeyStep(before + ps[..j], Key, ps[j]);
  }

  /** Resolve's inner loop: adds each pattern of a pack whose key the dictionary does not
    * hold yet. */
  method AddPatterns(ghost before: seq<ConceptPattern>, resolved: seq<ConceptPattern>, seen: set<string>,
                     ps: seq<ConceptPattern>)
    returns (resolved': seq<ConceptPattern>, seen': set<string>)
    requires resolved == FirstByKey(before, Key) && seen == KeySet(resolved, Key)
    ensures resolved' == FirstByKey(before + ps, Key) && seen' == KeySet(resolved', Key)
  {
    resolved', seen' := resolved, seen;
    assert before + ps[..0] == before;
    for j := 0 to |ps|
      invariant resolved' == FirstByKey(before + ps[..j], Key)
      invariant seen' == KeySet(resolved', Key)
    {
      var key := Key(ps[j]);
      AddStep(before, ps, j);
      if key !in seen' {
        KeySetAppend(resolved', Key, ps[j]);
        resolved' := resolved' + [ps[j]];
        seen' := seen' + {key};
      }
    }
    assert ps[..|ps|] == ps;
  }

  // ---------------------------------------------------------------------
  // Which packs apply

  /** An independent statement of which pack names apply, by the normalized modality m
    * and body region b. */
  predicate Applies(name: string, m: string, b: string) {
    name == Global
    || (m == "CT" && (name == CtCommon || (name == CtChest && b == "CHEST")
                      || (name == CtAbdomen && b == "ABDOMEN") || (name == CtAbdPelvis && b == "ABD_PELVIS")))
    || (m == "MRI" && (name == MriCommon || (name == MriBrain && b == "BRAIN_HEAD")))
    || (m == "US" && (name == UsCommon || (name == UsAbdomen && b == "ABDOMEN")))
  }

  /** A pack is applied exactly when its modality, and its region where it has one, match. */
  lemma AppliedPacksExactly(modality: string, bodyRegion: string, name: string)
    ensures name in AppliedPacks(modality, bodyRegion) <==> Applies(name, Normalize(modality), Normalize(bodyRegion))
  {
    PacksForExactly(Normalize(modality), Normalize(bodyRegion), name);
  }

  lemma PacksForExactly(m: string, b: string, name: string)
    ensures name in PacksFor(m, b) <==> Applies(name, m, b)
  {
    PackNamesDistinct();
  }

  /** The pack names differ from one another. */
  lemma PackNamesDistinct()
    ensures Global != CtCommon && Global != MriCommon && Global != UsCommon
    ensures CtCommon != CtChest && CtCommon != CtAbdomen && CtCommon != CtAbdPelvis
    ensures MriCommon != MriBrain && UsCommon != UsAbdomen
  {
    assert |Global| == 6 && |CtCommon| == 9 && |MriCommon| == 10 && |UsCommon| == 9;
    assert |CtChest| == 8 && |CtAbdomen| == 10 && |CtAbdPelvis| == 13;
    assert |MriBrain| == 9 && |UsAbdomen| == 10;
  }

  /** Only GLOBAL applies exactly when the modality is none of CT, MRI and US. */
  lemma GlobalOnlyIff(modality: string, bodyRegion: string)
    ensures AppliedPacks(modality, bodyRegion) == [Global] <==>
      (Normalize(modality) != "CT" && Normalize(modality) != "MRI" && Normalize(modality) != "US")
  {
  }

  /** No pack is applied twice. */
  lemma AppliedPacksDistinct(modality: string, bodyRegion: string)
    ensures var r := AppliedPacks(modality, bodyRegion);
      forall i, j :: 0 <= i < j < |r| ==> r[i] != r[j]
  {
    PacksForDistinct(Normalize(modality), Normalize(bodyRegion));
  }

  lemma PacksForDistinct(m: string, b: string)
    ensures var r := PacksFor(m, b);
      forall i, j :: 0 <= i < j < |r| ==> r[i] != r[j]
  {
    PackNamesDistinct();
    var r := PacksFor(m, b);
    if m == "CT" {
      assert r[..2] == [Global, CtCommon];
      assert |r| == 3 ==> r[2] == CtChest || r[2] == CtAbdomen || r[2] == CtAbdPelvis;
      assert Global != CtChest && Global != CtAbdomen && Global != CtAbdPelvis by {
        assert |CtChest| == 8 && |CtAbdomen| == 10 && |CtAbdPelvis| == 13;
      }
    } else if m == "MRI" {
      assert r[..2] == [Global, MriCommon];
      assert |r| == 3 ==> r[2] == MriBrain;
      assert Global != MriBrain by { assert |MriBrain| == 9; }
    } else if m == "US" {
      assert r[..2] == [Global, UsCommon];
      assert |r| == 3 ==> r[2] == UsAbdomen;
      assert Global != UsAbdomen by { assert |UsAbdomen| == 10; }
    }
  }

  // ---------------------------------------------------------------------
  // Which patterns are resolved

  /** The applied patterns are exactly the patterns of the packs registered under the
    * applied names. */
  lemma AppliedPatternsMembers(packs: seq<Pack>, applied: seq<string>, p: ConceptPattern)
    ensures p in AppliedPatterns(packs, applied) <==> exists k :: 0 <= k < |applied| && p in PatternsOf(packs, applied[k])
  {
    FlatMapUpToMembers(applied, |applied|, PackPatterns(packs), p);
  }

  /** An empty registry contributes no patterns, whatever packs are applied. */
  lemma EmptyRegistryNoPatterns(applied: seq<string>)
    ensures AppliedPatterns([], applied) == []
  {
    FlatMapUpToEmpty(applied, |applied|, PackPatterns([]));
  }

  /** Every pattern of a pack registered under an applied name has its key among the
    * resolved patterns. */
  lemma RegisteredPatternsResolved(packs: seq<Pack>, modality: string, bodyRegion: string, k: nat, p: ConceptPattern)
    requires k < |AppliedPacks(modality, bodyRegion)|
    requires p in PatternsOf(packs, AppliedPacks(modality, bodyRegion)[k])
    ensures Key(p) in KeySet(FirstByKey(AppliedPatterns(packs, AppliedPacks(modality, bodyRegion)), Key), Key)
  {
    var s := AppliedPatterns(packs, AppliedPacks(modality, bodyRegion));
    AppliedPatternsMembers(packs, AppliedPacks(modality, bodyRegion), p);
    var j :| 0 <= j < |s| && s[j] == p;
    assert Key(p) in KeySet(s, Key);
  }

  // ---------------------------------------------------------------------
  // The default registry

  const Condition := "Condition"

  const GlobalPatterns := [
    ConceptPattern("fracture", Condition),
    ConceptPattern("mass", Condition),
    ConceptPattern("cyst", Condition),
    ConceptPattern("lesion", Condition)]

  const CtCommonPatterns := [
    ConceptPattern("pulmonary embolism", Condition),
    ConceptPattern("pneumothorax", Condition),
    ConceptPattern("pneumonia", Condition)]

  const MriCommonPatterns := [
    ConceptPattern("infarct", Condition),
    ConceptPattern("ischemia", Condition),
    ConceptPattern("tumor", Condition)]

  const UsCommonPatterns := [
    ConceptPattern("cholelithiasis", Condition),
    ConceptPattern("hydronephrosis", Condition)]

  const CtChestPatterns := [
    ConceptPattern("pulmonary embolism", Condition),
    ConceptPattern("pneumothorax", Condition),
    ConceptPattern("pneumonia", Condition)]

  const CtAbdomenPatterns := [
    ConceptPattern("appendicitis", Condition),
    ConceptPattern("bowel obstruction", Condition)]

  const CtAbdPelvisPatterns := [
    ConceptPattern("appendicitis", Condition),
    ConceptPattern("diverticulitis", Condition),
    ConceptPattern("bowel obstruction", Condition)]

  const MriBrainPatterns := [
    ConceptPattern("stroke", Condition),
    ConceptPattern("intracranial hemorrhage", Condition)]

  const UsAbdomenPatterns := [
    ConceptPattern("cholelithiasis", Condition),
    ConceptPattern("hydronephrosis", Condition)]

  /** The packs of the parameterless registry, in registration order. */
  const DefaultPacks := [
    Pack(Global, GlobalPatterns), Pack(CtCommon, CtCommonPatterns), Pack(MriCommon, MriCommonPatterns),
    Pack(UsCommon, UsCommonPatterns), Pack(CtChest, CtChestPatterns), Pack(CtAbdomen, CtAbdomenPatterns),
    Pack(CtAbdPelvis, CtAbdPelvisPatterns), Pack(MriBrain, MriBrainPatterns), Pack(UsAbdomen, UsAbdomenPatterns)]

  /** "CT" and "CHEST" are already normalized. */
  lemma CtChestNormalized()
    ensures AppliedPacks("CT", "CHEST") == [Global, CtCommon, CtChest]
  {
    TrimOfTrimmed("CT");
    TrimOfTrimmed("CHEST");
    assert Upper("CT") == "CT";
    assert Upper("CHEST") == "CHEST";
  }

  /** CT_CHEST and CT_ABDOMEN are registered fifth and sixth, after packs of other names. */
  lemma ChestAndAbdomenPacks()
    ensures PatternsOf(DefaultPacks, CtChest) == CtChestPatterns
    ensures PatternsOf(DefaultPacks, CtAbdomen) == CtAbdomenPatterns
  {
    assert |Lower(Global)| == 6 && |Lower(CtCommon)| == 9 && |Lower(MriCommon)| == 10 && |Lower(UsCommon)| == 9;
    assert |Lower(CtChest)| == 8 && |Lower(CtAbdomen)| == 10;
    assert !EqIgnoreCase(DefaultPacks[0].name, CtChest) && !EqIgnoreCase(DefaultPacks[1].name, CtChest);
    assert !EqIgnoreCase(DefaultPacks[2].name, CtChest) && !EqIgnoreCase(DefaultPacks[3].name, CtChest);
    assert EqIgnoreCase(DefaultPacks[4].name, CtChest);
    assert PackIndex(DefaultPacks, CtChest) == 4;
    assert Lower(MriCommon)[0] != Lower(CtAbdomen)[0];
    assert !EqIgnoreCase(DefaultPacks[0].name, CtAbdomen) && !EqIgnoreCase(DefaultPacks[1].name, CtAbdomen);
    assert !EqIgnoreCase(DefaultPacks[2].name, CtAbdomen) && !EqIgnoreCase(DefaultPacks[3].name, CtAbdomen);
    assert !EqIgnoreCase(DefaultPacks[4].name, CtAbdomen) && EqIgnoreCase(DefaultPacks[5].name, CtAbdomen);
    assert PackIndex(DefaultPacks, CtAbdomen) == 5;
  }

  /** GLOBAL and CT_COMMON are registered first and second. */
  lemma GlobalAndCtCommonPacks()
    ensures PatternsOf(DefaultPacks, Global) == GlobalPatterns
    ensures PatternsOf(DefaultPacks, CtCommon) == CtCommonPatterns
  {
    assert PackIndex(DefaultPacks, Global) == 0;
    assert |Lower(Global)| == 6 && |Lower(CtCommon)| == 9;
    assert !EqIgnoreCase(DefaultPacks[0].name, CtCommon);
    assert PackIndex(DefaultPacks, CtCommon) == 1;
  }

  /** The patterns a CT study of a region visits: GLOBAL's, CT_COMMON's, then the region
    * pack's. */
  lemma CtAppliedPatterns(region: string)
    requires region == CtChest || region == CtAbdomen
    ensures AppliedPatterns(DefaultPacks, [Global, CtCommon, region])
      == GlobalPatterns + CtCommonPatterns + PatternsOf(DefaultPacks, region)
  {
    GlobalAndCtCommonPacks();
    var f := PackPatterns(DefaultPacks);
    var applied := [Global, CtCommon, region];
    assert FlatMapUpTo(applied, 1, f) == GlobalPatterns;
    assert FlatMapUpTo(applied, 2, f) == GlobalPatterns + CtCommonPatterns;
  }

  /** The j-th visited pattern is kept when no earlier one shares its key. */
  lemma KeptAt(s: seq<ConceptPattern>, j: nat)
    requires j < |s|
    requires forall m :: 0 <= m < j ==> Key(s[m]) != Key(s[j])
    ensures s[j] in FirstByKey(s, Key)
  {
    FirstByKeyIff(s, Key, s[j]);
  }

  /** A key is as long as the type, the separator and the normalized text together. */
  lemma KeyLength(p: ConceptPattern)
    ensures |Key(p)| == |p.conceptType| + 1 + |p.normalized|
  {
  }

  /** Visiting GLOBAL, CT_COMMON and CT_CHEST keeps the CT_COMMON patterns, which are the
    * CT_CHEST ones: no GLOBAL key is as long as theirs. */
  lemma CtChestKept()
    ensures forall p :: p in CtChestPatterns ==>
      p in FirstByKey(GlobalPatterns + CtCommonPatterns + CtChestPatterns, Key)
  {
    var s := GlobalPatterns + CtCommonPatterns + CtChestPatterns;
    assert |Key(s[0])| == 18 && |Key(s[1])| == 14 && |Key(s[2])| == 14 && |Key(s[3])| == 16 by {
      KeyLength(s[0]); KeyLength(s[1]); KeyLength(s[2]); KeyLength(s[3]);
    }
    assert |Key(s[4])| == 28 && |Key(s[5])| == 22 && |Key(s[6])| == 19 by {
      KeyLength(s[4]); KeyLength(s[5]); KeyLength(s[6]);
    }
    forall j | 4 <= j < 7 ensures s[j] in FirstByKey(s, Key) {
      forall m | 0 <= m < j ensures Key(s[m]) != Key(s[j]) {
        assert m in {0, 1, 2, 3, 4, 5};
      }
      KeptAt(s, j);
    }
    assert CtChestPatterns == [s[4], s[5], s[6]];
  }

  /** For CT of the chest the default registry resolves each CT_CHEST pattern itself:
    * pulmonary embolism, pneumothorax and pneumonia, with their type. */
  lemma CtChestResolvesItsConcepts()
    ensures forall p :: p in CtChestPatterns ==> p in Resolution(DefaultPacks, "CT", "CHEST").patterns
    ensures forall p :: p in CtChestPatterns ==>
      Key(p) in KeySet(FirstByKey(AppliedPatterns(DefaultPacks, AppliedPacks("CT", "CHEST")), Key), Key)
  {
    CtChestNormalized();
    ChestAndAbdomenPacks();
    CtAppliedPatterns(CtChest);
    CtChestKept();
    forall p | p in CtChestPatterns
      ensures Key(p) in KeySet(FirstByKey(AppliedPatterns(DefaultPacks, AppliedPacks("CT", "CHEST")), Key), Key)
    {
      RegisteredPatternsResolved(DefaultPacks, "CT", "CHEST", 2, p);
    }
  }

  /** "CT" and "ABDOMEN" are already normalized. */
  lemma CtAbdomenNormalized()
    ensures AppliedPacks("CT", "ABDOMEN") == [Global, CtCommon, CtAbdomen]
  {
    TrimOfTrimmed("CT");
    TrimOfTrimmed("ABDOMEN");
    assert Upper("CT") == "CT";
    assert Upper("ABDOMEN") == "ABDOMEN";
  }

  /** Visiting GLOBAL, CT_COMMON and CT_ABDOMEN keeps both CT_ABDOMEN patterns: only
    * pneumothorax has a key as long as one of theirs, and it differs from appendicitis
    * after the separator. */
  lemma CtAbdomenKept()
    ensures forall p :: p in CtAbdomenPatterns ==>
      p in FirstByKey(GlobalPatterns + CtCommonPatterns + CtAbdomenPatterns, Key)
  {
    var s := GlobalPatterns + CtCommonPatterns + CtAbdomenPatterns;
    assert |Key(s[0])| == 18 && |Key(s[1])| == 14 && |Key(s[2])| == 14 && |Key(s[3])| == 16 by {
      KeyLength(s[0]); KeyLength(s[1]); KeyLength(s[2]); KeyLength(s[3]);
    }
    assert |Key(s[4])| == 28 && |Key(s[6])| == 19 && |Key(s[8])| == 27 by {
      KeyLength(s[4]); KeyLength(s[6]); KeyLength(s[8]);
    }
    assert Key(s[7]) != Key(s[5]) by {
      assert Key(s[7])[10] == 'a' && Key(s[5])[10] == 'p';
    }
    assert |Key(s[5])| == 22 && |Key(s[7])| == 22 by {
      KeyLength(s[5]); KeyLength(s[7]);
    }
    forall j | 7 <= j < 9 ensures s[j] in FirstByKey(s, Key) {
      forall m | 0 <= m < j ensures Key(s[m]) != Key(s[j]) {
        assert m in {0, 1, 2, 3, 4, 5, 6, 7};
      }
      KeptAt(s, j);
    }
    assert CtAbdomenPatterns == [s[7], s[8]];
  }

  /** For CT of the abdomen the default registry resolves each CT_ABDOMEN pattern itself:
    * appendicitis and bowel obstruction, with their type. */
  lemma CtAbdomenResolvesItsConcepts()
    ensures forall p :: p in CtAbdomenPatterns ==> p in Resolution(DefaultPacks, "CT", "ABDOMEN").patterns
    ensures forall p :: p in CtAbdomenPatterns ==>
      Key(p) in KeySet(FirstByKey(AppliedPatterns(DefaultPacks, AppliedPacks("CT", "ABDOMEN")), Key), Key)
  {
    CtAbdomenNormalized();
    ChestAndAbdomenPacks();
    CtAppliedPatterns(CtAbdomen);
    CtAbdomenKept();
    forall p | p in CtAbdomenPatterns
      ensures Key(p) in KeySet(FirstByKey(AppliedPatterns(DefaultPacks, AppliedPacks("CT", "ABDOMEN")), Key), Key)
    {
      RegisteredPatternsResolved(DefaultPacks, "CT", "ABDOMEN", 2, p);
    }
  }
}
