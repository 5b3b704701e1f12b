/** The fail-fast check of the rule catalog: every problem of every pack and rule is
  * collected, and the catalog is rejected with all their messages at once. */
module RulesOptionsValidator {
  import opened Text
  import opened Sequences
  import opened RulesModel
  import RulesEngine

  /** One catalog problem; each carries the PackId of the pack it was found in. */
  datatype Problem =
    | MissingPackId(packId: string)
    | MissingLayer(packId: string)
    | InvalidLayer(packId: string, layer: string)
    | DatesReversed(packId: string)
    | EmptyRuleId(packId: string)
    | DuplicateRuleId(packId: string, ruleId: string)
    | InvalidCategory(packId: string, ruleId: string)
    | InvalidStatus(packId: string, ruleId: string)
    | InvalidSeverity(packId: string, ruleId: string)
    | InvalidAction(packId: string, ruleId: string)
    | EmptyTrigger(packId: string, ruleId: string)
  {
    /** A problem of one rule rather than of the pack itself. */
    predicate IsRuleProblem() {
      !(MissingPackId? || MissingLayer? || InvalidLayer? || DatesReversed?)
    }
  }

  /** The text each problem contributes to the rejection message. */
  function Message(p: Problem): string {
    match p
    case MissingPackId(_) => "Rule pack PackId is required."
    case MissingLayer(id) => "Rule pack " + id + " missing Layer."
    case InvalidLayer(id, layer) => "Rule pack " + id + " has invalid Layer '" + layer + "'."
    case DatesReversed(id) => "Rule pack " + id + " has EffectiveStart after EffectiveEnd."
    case EmptyRuleId(id) => "Rule pack " + id + " contains a rule with empty RuleId."
    case DuplicateRuleId(id, rule) => "Rule pack " + id + " contains duplicate RuleId '" + rule + "'."
    case InvalidCategory(id, rule) => "Rule pack " + id + " rule " + rule + " has invalid category."
    case InvalidStatus(id, rule) => "Rule pack " + id + " rule " + rule + " has invalid status."
    case InvalidSeverity(id, rule) => "Rule pack " + id + " rule " + rule + " has invalid severity."
    case InvalidAction(id, rule) => "Rule pack " + id + " rule " + rule + " has invalid action."
    case EmptyTrigger(id, rule) => "Rule pack " + id + " rule " + rule + " has empty trigger."
  }

  /** The verdict: the catalog is accepted, or rejected with one message. */
  datatype Verdict = Accepted | Rejected(message: string)

  // ---------------------------------------------------------------------
  // The checks

  /** The four layers of the LayerOrder table, case-insensitively. */
  predicate IsValidLayer(layer: string) {
    EqIgnoreCase(layer, "GLOBAL") || EqIgnoreCase(layer, "NCCI_MUE")
    || EqIgnoreCase(layer, "PAYER") || EqIgnoreCase(layer, "CLIENT")
  }

  /** No trigger condition is set. */
  predicate IsEmptyTrigger(t: RuleTrigger) {
    t.cptCodes == [] && t.icdCodes == [] && t.icdPrefixes == [] && t.placeOfService == []
    && t.minAge.None? && t.maxAge.None? && t.requiredModifiers == [] && t.providerSpecialties == []
    && !t.requiresDateOfService && !t.requiresIcdMismatch && t.minDaysSinceLast.None?
  }

  predicate IsDefinedCategory(c: RuleCategory) { !c.UndefinedCategory? }
  predicate IsDefinedStatus(s: RuleStatus) { !s.UndefinedStatus? }
  predicate IsDefinedSeverity(s: RuleSeverity) { !s.UndefinedSeverity? }
  predicate IsDefinedAction(a: RuleActionType) { !a.UndefinedAction? }

  function CheckIf(cond: bool, p: Problem): seq<Problem> {
    if cond then [p] else []
  }

  /** The problems of the pack's own fields: PackId, Layer and the effective window. */
  function HeaderProblems(pack: RulePack): (r: seq<Problem>)
    ensures MissingPackId(pack.packId) in r <==> IsBlank(pack.packId)
    ensures MissingLayer(pack.packId) in r <==> IsBlank(pack.layer)
    ensures InvalidLayer(pack.packId, pack.layer) in r <==> !IsBlank(pack.layer) && !IsValidLayer(pack.layer)
    ensures DatesReversed(pack.packId) in r <==>
      pack.effectiveStart.Some? && pack.effectiveEnd.Some? && pack.effectiveStart.value > pack.effectiveEnd.value
    ensures forall q :: q in r ==> q.packId == pack.packId && !q.IsRuleProblem()
    ensures forall q :: q in r && q.InvalidLayer? ==> q.layer == pack.layer
  {
    var id := pack.packId;
    CheckIf(IsBlank(id), MissingPackId(id))
    + (if IsBlank(pack.layer) then [MissingLayer(id)]
       else CheckIf(!IsValidLayer(pack.layer), InvalidLayer(id, pack.layer)))
    + CheckIf(pack.effectiveStart.Some? && pack.effectiveEnd.Some?
              && pack.effectiveStart.value > pack.effectiveEnd.value, DatesReversed(id))
  }

  /** An earlier rule of the list has a non-blank RuleId equal to that of rule j,
    * ignoring case. */
  predicate IsRepeat(rules: seq<RuleDefinition>, j: nat)
    requires j < |rules|
  {
    exists i :: 0 <= i < j && !IsBlank(rules[i].ruleId) && EqIgnoreCase(rules[i].ruleId, rules[j].ruleId)
  }

  /** The problems of one rule, in the order they are checked; `repeat` says that an
    * earlier rule of the pack has the same RuleId. */
  function RuleChecks(packId: string, rule: RuleDefinition, repeat: bool): seq<Problem> {
    var id := rule.ruleId;
    (if IsBlank(id) then [EmptyRuleId(packId)] else CheckIf(repeat, DuplicateRuleId(packId, id)))
    + CheckIf(!IsDefinedCategory(rule.category), InvalidCategory(packId, id))
    + CheckIf(!IsDefinedStatus(rule.action.status), InvalidStatus(packId, id))
    + CheckIf(!IsDefinedSeverity(rule.action.severity), InvalidSeverity(packId, id))
    + CheckIf(!IsDefinedAction(rule.action.action), InvalidAction(packId, id))
    + CheckIf(IsEmptyTrigger(rule.trigger), EmptyTrigger(packId, id))
  }

  /** q is a problem of the rule: an empty RuleId, a repeated one, one of the four
    * undefined enumeration values, or an empty trigger, reported under the pack's id and
    * (except for an empty RuleId) the rule's own. */
  predicate RuleHasProblem(packId: string, rule: RuleDefinition, repeat: bool, q: Problem) {
    var id := rule.ruleId;
    (q == EmptyRuleId(packId) && IsBlank(id))
    || (q == DuplicateRuleId(packId, id) && !IsBlank(id) && repeat)
    || (q == InvalidCategory(packId, id) && !IsDefinedCategory(rule.category))
    || (q == InvalidStatus(packId, id) && !IsDefinedStatus(rule.action.status))
    || (q == InvalidSeverity(packId, id) && !IsDefinedSeverity(rule.action.severity))
    || (q == InvalidAction(packId, id) && !IsDefinedAction(rule.action.action))
    || (q == EmptyTrigger(packId, id) && IsEmptyTrigger(rule.trigger))
  }

  /** The checks of one rule report exactly its problems. */
  lemma RuleChecksMembers(packId: string, rule: RuleDefinition, repeat: bool, q: Problem)
    ensures q in RuleChecks(packId, rule, repeat) <==> RuleHasProblem(packId, rule, repeat, q)
  {
    var id := rule.ruleId;
    var a := if IsBlank(id) then [EmptyRuleId(packId)] else CheckIf(repeat, DuplicateRuleId(packId, id));
    var b := CheckIf(!IsDefinedCategory(rule.category), InvalidCategory(packId, id));
    var c := CheckIf(!IsDefinedStatus(rule.action.status), InvalidStatus(packId, id));
    var d := CheckIf(!IsDefinedSeverity(rule.action.severity), InvalidSeverity(packId, id));
    var e := CheckIf(!IsDefinedAction(rule.action.action), InvalidAction(packId, id));
    var f := CheckIf(IsEmptyTrigger(rule.trigger), EmptyTrigger(packId, id));
    assert RuleChecks(packId, rule, repeat) == a + b + c + d + e + f;
    assert q in a + b + c + d + e + f <==> q in a || q in b || q in c || q in d || q in e || q in f;
  }

  /** Each rule of a pack with whether its RuleId repeats an earlier one. */
  function Flagged(rules: seq<RuleDefinition>): (r: seq<(RuleDefinition, bool)>)
    ensures |r| == |rules|
    ensures forall j :: 0 <= j < |rules| ==> r[j] == (rules[j], IsRepeat(rules, j))
  {
    seq(|rules|, j requires 0 <= j < |rules| => (rules[j], IsRepeat(rules, j)))
  }

  /** The checks of a flagged rule. */
  function ChecksOf(packId: string): ((RuleDefinition, bool)) -> seq<Problem> {
    (e: (RuleDefinition, bool)) => RuleChecks(packId, e.0, e.1)
  }

  /** The problems of the rules of a pack, rule after rule. */
  function RuleProblems(packId: string, rules: seq<RuleDefinition>): seq<Problem> {
    FlatMap(Flagged(rules), ChecksOf(packId))
  }

  /** The problems of one pack: its own, then those of its rules. */
  function PackProblems(pack: RulePack): seq<Problem> {
    HeaderProblems(pack) + RuleProblems(pack.packId, pack.rules)
  }

  /** The problems of the catalog, pack after pack. */
  function Problems(packs: seq<RulePack>): seq<Problem> {
    FlatMap(packs, PackProblems)
  }

  // ---------------------------------------------------------------------
  // Properties

  /** A rule problem is found exactly at the rule it is about. */
  lemma RuleProblemsMembers(packId: string, rules: seq<RuleDefinition>, q: Problem)
    ensures q in RuleProblems(packId, rules) <==>
      exists j :: 0 <= j < |rules| && RuleHasProblem(packId, rules[j], IsRepeat(rules, j), q)
  {
    var flagged := Flagged(rules);
    FlatMapUpToMembers(flagged, |flagged|, ChecksOf(packId), q);
    forall j | 0 <= j < |rules|
      ensures q in ChecksOf(packId)(flagged[j]) <==> RuleHasProblem(packId, rules[j], IsRepeat(rules, j), q)
    {
      RuleChecksMembers(packId, rules[j], IsRepeat(rules, j), q);
    }
  }

  /** Every problem of a catalog is one of the problems of one of its packs. */
  lemma ProblemsMembers(packs: seq<RulePack>, q: Problem)
    ensures q in Problems(packs) <==> exists i :: 0 <= i < |packs| && q in PackProblems(packs[i])
  {
    FlatMapUpToMembers(packs, |packs|, PackProblems, q);
  }

  /** The pack-level problems of a pack are exactly those of its own fields. */
  lemma PackHeaderProblems(pack: RulePack, q: Problem)
    requires !q.IsRuleProblem()
    ensures q in PackProblems(pack) <==> q in HeaderProblems(pack)
  {
    var rp := RuleProblems(pack.packId, pack.rules);
    if q in rp {
      RuleProblemsMembers(pack.packId, pack.rules, q);
    }
  }

  /** Every problem of a pack carries that pack's PackId. */
  lemma PackProblemsNamePack(pack: RulePack, q: Problem)
    requires q in PackProblems(pack)
    ensures q.packId == pack.packId
  {
    if q in RuleProblems(pack.packId, pack.rules) {
      RuleProblemsMembers(pack.packId, pack.rules, q);
    }
  }

  /** What an accepted pack guarantees: a PackId, one of the four layers, an effective
    * window that is not reversed, and rules with distinct non-blank RuleIds, defined
    * enumeration values and a trigger. */
  predicate WellFormedPack(pack: RulePack) {
    && !IsBlank(pack.packId)
    && !IsBlank(pack.layer) && IsValidLayer(pack.layer)
    && !(pack.effectiveStart.Some? && pack.effectiveEnd.Some? && pack.effectiveStart.value > pack.effectiveEnd.value)
    && forall j :: 0 <= j < |pack.rules| ==> WellFormedRule(pack.rules, j)
  }

  predicate WellFormedRule(rules: seq<RuleDefinition>, j: nat)
    requires j < |rules|
  {
    var rule := rules[j];
    && !IsBlank(rule.ruleId) && !IsRepeat(rules, j)
    && IsDefinedCategory(rule.category) && IsDefinedStatus(rule.action.status)
    && IsDefinedSeverity(rule.action.severity) && IsDefinedAction(rule.action.action)
    && !IsEmptyTrigger(rule.trigger)
  }

  /** A rule has no problems exactly when it is well formed. */
  lemma RuleAccepted(packId: string, rules: seq<RuleDefinition>, j: nat)
    requires j < |rules|
    ensures RuleChecks(packId, rules[j], IsRepeat(rules, j)) == [] <==> WellFormedRule(rules, j)
  {
  }

  /** A pack has no problems exactly when it is well formed. */
  lemma PackAccepted(pack: RulePack)
    ensures PackProblems(pack) == [] <==> WellFormedPack(pack)
  {
    var flagged := Flagged(pack.rules);
    FlatMapUpToEmpty(flagged, |flagged|, ChecksOf(pack.packId));
    forall j | 0 <= j < |pack.rules|
      ensures ChecksOf(pack.packId)(flagged[j]) == [] <==> WellFormedRule(pack.rules, j)
    {
      RuleAccepted(pack.packId, pack.rules, j);
    }
  }

  /** The catalog is accepted exactly when every pack in it is well formed. */
  lemma CatalogAccepted(packs: seq<RulePack>)
    ensures Problems(packs) == [] <==> forall i :: 0 <= i < |packs| ==> WellFormedPack(packs[i])
  {
    FlatMapUpToEmpty(packs, |packs|, PackProblems);
    forall i | 0 <= i < |packs|
      ensures PackProblems(packs[i]) == [] <==> WellFormedPack(packs[i])
    {
      PackAccepted(packs[i]);
    }
  }

  /** Equal effective dates are accepted; only a start after the end is reported. */
  lemma EqualDatesAccepted(pack: RulePack)
    requires pack.effectiveStart.Some? && pack.effectiveEnd.Some?
    requires pack.effectiveStart.value == pack.effectiveEnd.value
    ensures DatesReversed(pack.packId) !in PackProblems(pack)
  {
    PackHeaderProblems(pack, DatesReversed(pack.packId));
  }

  /** A RuleId is reported as a duplicate in a pack exactly when a later rule of that
    * pack repeats a non-blank RuleId of an earlier one, ignoring case; one problem is
    * recorded per repeating rule. */
  lemma DuplicateRuleIds(pack: RulePack, id: string)
    ensures DuplicateRuleId(pack.packId, id) in PackProblems(pack) <==>
      exists j :: 0 <= j < |pack.rules| && pack.rules[j].ruleId == id && !IsBlank(id) && IsRepeat(pack.rules, j)
  {
    var q := DuplicateRuleId(pack.packId, id);
    var rules := pack.rules;
    RuleProblemsMembers(pack.packId, rules, q);
    if j :| 0 <= j < |rules| && RuleHasProblem(pack.packId, rules[j], IsRepeat(rules, j), q) {
      assert rules[j].ruleId == id;
    }
  }

  /** The same RuleId in two different packs is not a duplicate: a duplicate of a
    * catalog is a duplicate within one of its packs. */
  lemma DuplicatesArePerPack(packs: seq<RulePack>, packId: string, id: string)
    requires DuplicateRuleId(packId, id) in Problems(packs)
    ensures exists i, j :: (0 <= i < |packs| && packs[i].packId == packId && 0 <= j < |packs[i].rules|
                            && packs[i].rules[j].ruleId == id && IsRepeat(packs[i].rules, j))
  {
    ProblemsMembers(packs, DuplicateRuleId(packId, id));
    var i :| 0 <= i < |packs| && DuplicateRuleId(packId, id) in PackProblems(packs[i]);
    var pack := packs[i];
    PackProblemsNamePack(pack, DuplicateRuleId(packId, id));
    DuplicateRuleIds(pack, id);
  }

  /** A layer the validator accepts is ranked by the engine's LayerOrder table under
    * its own name: PAYER ranks 2 like an unknown layer, the other three keep their own
    * ordinal. */
  lemma ValidLayerRanks(layer: string)
    requires IsValidLayer(layer)
    ensures LayerOrdinal(layer) == 2 <==> EqIgnoreCase(layer, "PAYER")
  {
    assert Lower("PAYER")[0] == 'p' && Lower("GLOBAL")[0] == 'g';
    assert Lower("NCCI_MUE")[0] == 'n' && Lower("CLIENT")[0] == 'c';
  }

  /** Why an empty trigger is an error: it matches every claim. */
  lemma EmptyTriggerMatchesEveryClaim(rule: RuleDefinition, claim: Claim)
    requires IsEmptyTrigger(rule.trigger)
    ensures RulesEngine.TriggerMatches(rule, claim)
  {
  }

  // ---------------------------------------------------------------------
  // RulesOptionsValidator.ValidateOrThrow

  /** Collects the problems of every pack and rule; the catalog is rejected, with the
    * messages joined by single spaces, when there is at least one. */
  method ValidateOrThrow(packs: seq<RulePack>) returns (r: Verdict)
    ensures r.Accepted? <==> Problems(packs) == []
    ensures r.Rejected? ==> r.message == Join(" ", Map(Problems(packs), Message))
  {
    var errors: seq<Problem> := [];
    for p := 0 to |packs|
      invariant errors == FlatMapUpTo(packs, p, PackProblems)
    {
      var found := CheckPack(packs[p]);
      errors := errors + found;
    }
    if errors != [] {
      return Rejected(Join(" ", Map(errors, Message)));
    }
    return Accepted;
  }

  /** The problems one pass of the pack loop adds to the error list. */
  method CheckPack(pack: RulePack) returns (found: seq<Problem>)
    ensures found == PackProblems(pack)
  {
    var header := CheckPackFields(pack);
    var rules := CheckRules(pack.packId, pack.rules);
    found := header + rules;
  }

  /** The checks of the pack's PackId, Layer and effective window. */
  method CheckPackFields(pack: RulePack) returns (found: seq<Problem>)
    ensures found == HeaderProblems(pack)
  {
    var id := pack.packId;
    found := CheckIf(IsBlank(id), MissingPackId(id));
    if IsBlank(pack.layer) {
      found := found + [MissingLayer(id)];
    } else if !IsValidLayer(pack.layer) {
      found := found + [InvalidLayer(id, pack.layer)];
    }
    found := AddIf(found, pack.effectiveStart.Some? && pack.effectiveEnd.Some?
                          && pack.effectiveStart.value > pack.effectiveEnd.value, DatesReversed(id));
  }

  /** The rule loop of one pack, with its case-insensitive set of the RuleIds seen. */
  method CheckRules(packId: string, rules: seq<RuleDefinition>) returns (found: seq<Problem>)
    ensures found == RuleProblems(packId, rules)
  {
    found := [];
    var ruleIds: set<string> := {};
    for k := 0 to |rules|
      invariant found == FlatMapUpTo(Flagged(rules), k, ChecksOf(packId))
      invariant forall x :: x in ruleIds <==> SeenAmong(rules, k, x)
    {
      var more;
      more, ruleIds := CheckRule(packId, rules, k, ruleIds);
      found := found + more;
    }
  }

  /** x is the lower-cased form of a non-blank RuleId among the first k rules: the
    * contents of the case-insensitive RuleId set after k rules. */
  ghost predicate SeenAmong(rules: seq<RuleDefinition>, k: nat, x: string)
    requires k <= |rules|
  {
    exists i :: 0 <= i < k && !IsBlank(rules[i].ruleId) && Lower(rules[i].ruleId) == x
  }

  /** The problems of rule k, and the RuleId set with its RuleId added (HashSet.Add,
    * which reports whether the id was new). */
  method CheckRule(packId: string, rules: seq<RuleDefinition>, k: nat, ruleIds: set<string>)
    returns (found: seq<Problem>, ruleIds': set<string>)
    requires k < |rules|
    requires forall x :: x in ruleIds <==> SeenAmong(rules, k, x)
    ensures found == ChecksOf(packId)(Flagged(rules)[k])
    ensures forall x :: x in ruleIds' <==> SeenAmong(rules, k + 1, x)
  {
    var rule := rules[k];
    var id := rule.ruleId;
    RepeatIsSeen(rules, k, ruleIds);
    SeenAmongNext(rules, k);
    found, ruleIds' := [], ruleIds;
    if IsBlank(id) {
      found := [EmptyRuleId(packId)];
    } else if Lower(id) in ruleIds {
      found := [DuplicateRuleId(packId, id)];
    } else {
      ruleIds' := ruleIds + {Lower(id)};
    }
    found := AddIf(found, !IsDefinedCategory(rule.category), InvalidCategory(packId, id));
    found := AddIf(found, !IsDefinedStatus(rule.action.status), InvalidStatus(packId, id));
    found := AddIf(found, !IsDefinedSeverity(rule.action.severity), InvalidSeverity(packId, id));
    found := AddIf(found, !IsDefinedAction(rule.action.action), InvalidAction(packId, id));
    found := AddIf(found, IsEmptyTrigger(rule.trigger), EmptyTrigger(packId, id));
  }

  /** `if (cond) errors.Add(message)`. */
  method AddIf(errors: seq<Problem>, cond: bool, p: Problem) returns (extended: seq<Problem>)
    ensures extended == errors + CheckIf(cond, p)
  {
    extended := errors;
    if cond {
      extended := extended + [p];
    }
  }

  /** The RuleIds seen after rule k are those seen before it and rule k's own. */
  lemma SeenAmongNext(rules: seq<RuleDefinition>, k: nat)
    requires k < |rules|
    ensures forall x :: SeenAmong(rules, k + 1, x) <==>
      SeenAmong(rules, k, x) || (!IsBlank(rules[k].ruleId) && Lower(rules[k].ruleId) == x)
  {
    forall x | SeenAmong(rules, k + 1, x)
      ensures SeenAmong(rules, k, x) || (!IsBlank(rules[k].ruleId) && Lower(rules[k].ruleId) == x)
    {
      var i :| 0 <= i < k + 1 && !IsBlank(rules[i].ruleId) && Lower(rules[i].ruleId) == x;
      if i < k {
        assert SeenAmong(rules, k, x);
      }
    }
  }

  /** Rule k repeats an earlier RuleId exactly when its lower-cased RuleId is in the
    * set of the earlier ones. */
  lemma RepeatIsSeen(rules: seq<RuleDefinition>, k: nat, ruleIds: set<string>)
    requires k < |rules|
    requires forall x :: x in ruleIds <==> SeenAmong(rules, k, x)
    ensures !IsBlank(rules[k].ruleId) ==> (IsRepeat(rules, k) <==> Lower(rules[k].ruleId) in ruleIds)
  {
    if !IsBlank(rules[k].ruleId) && Lower(rules[k].ruleId) in ruleIds {
      var i :| 0 <= i < k && !IsBlank(rules[i].ruleId) && Lower(rules[i].ruleId) == Lower(rules[k].ruleId);
      assert EqIgnoreCase(rules[i].ruleId, rules[k].ruleId);
    }
  }
}
