# Radiology auto-coding core, modelled in Dafny

This project models the decision logic of a radiology auto-coding platform and proves
its properties. There are three parts.

- **Coding worker.**
  - The claim rules engine: preflight checks on the claim header, rule-pack selection by
    payer, plan, state and effective date, conjunctive triggers, outcome building, the
    winning rule and the aggregate status.
  - The Auth, Frequency and PosSpecialty category validators, which refine a built outcome
    in place, and the fail-fast catalog check (`RulesOptionsValidator`).
  - Assembly of the claim from an extracted encounter (`ClaimContextBuilder`).
  - Table-driven CPT coding with modifiers.
  - The auto-select safety gate, and the ICD eligibility policy.
- **Extraction worker.**
  - Sentence splitting and section detection.
  - The negation and history scope resolvers.
  - Concept-pack resolution with first-wins deduplication.
  - Concept extraction and relevance marking.
  - The documentation completeness score, and the extraction service's warnings.
- **Terminology loader.**
  - The command-line parser.
  - The ICD-10-CM tabular and alphabetic-index readers. Each is a state machine over the
    stream of element, text and end-element nodes that the XML reader yields.

Each core file is one module. In pure modules (`RadiologyIcdPolicy`, pack selection,
trigger matching, the span parser) functions carry the properties. Where the source works
step by step, methods with loops are proved against a specification function:

- the engine's evaluation loop;
- the validators, on a `RuleOutcome` class whose fields they overwrite;
- the catalog check;
- the splitter's index loop;
- the detector's section map;
- the extractor's nested loops;
- the readers' event loops.

Lemmas then prove the source's promises about each specification function.

Modelling conventions:

- Strings are `seq<char>`, and case-insensitive comparison folds ASCII letters.
- A `DateOnly` is its day number.
- A C# enum is a datatype that also has a constructor for the undefined integer values a
  C# enum can hold, so the catalog check's `Enum.IsDefined` tests have something to reject.
- The documentation score is kept in integer hundredths. `Math.Round(score, 2)` makes that
  exact, and the safety gate's 0.70 threshold becomes 70.

**The engine follows its tests where they disagree with `RulesEngine.cs`.** The shipped
`RulesEngine.cs` is older than its tests and its collaborators:

- it compares enum fields with strings;
- it takes no validators;
- it has no preflight checks;
- it falls back to the DEFAULT packs without a date filter (RulesEngine.cs:81-87);
- `RuleDefinition`, `RuleTrigger` and `PatientContext` lack fields that the tests and the
  validators use (`Category`, `RequiresIcdMismatch`, `MinDaysSinceLast`, `PatientId`).

The model adds those fields and follows `RulesEngineTests.cs` and
`RuleCategoryValidatorTests.cs`:

- **Preflight.** Preflight outcomes come first: a missing date of service, payer, place of
  service, rendering NPI or billing NPI, and each invalid modifier.
  - The tests assert the payer, place-of-service, NPI and modifier ids
    (RulesEngineTests.cs:194-197,219).
  - The date-of-service id, the priorities (100 down to 70), the outcome shapes and the
    messages are this model's own choices.
  - When no pack is selected, the preflight outcomes still go through winner selection
    and aggregation, and the no-packs note is added. The shipped `Evaluate` returns before
    either step (RulesEngine.cs:28-33). The model passes the preflight outcomes through
    both steps, so that they compete for the winning rule and count in the aggregate.
- **DEFAULT fallback.** The DEFAULT packs are filtered by date like any other pack.
- **Validators.** Each built outcome goes to the validator registered for its category.
- **Blank place of service or specialty.** A blank place of service, and likewise a blank
  rendering-provider specialty, passes the matcher of a PosSpecialty rule, so that the
  category validator rather than the matcher reports it. The shipped matcher returns false
  for both (RulesEngine.cs:128-132,156-160).
- **ICD mismatch.** With `RequiresIcdMismatch` set, the ICD-prefix condition is inverted:
  the rule fires only when no diagnosis starts with any of the prefixes. The shipped
  `RuleTrigger` has no such field and always demands a matching prefix
  (RulesEngine.cs:122-126).
- **Winning rule.** The winning-rule comparator is kept exactly as written at
  RulesEngine.cs:199-207: Blocking, then Fail, then layer, then priority.

## Model

| member | source | states |
|---|---|---|
| Text.Trim | src/Services/Coding.Worker/Services/ClaimContextBuilder.cs:246 | the result is no longer than its input, empty exactly when the input is blank, has no white space at either end and is a contiguous part of the input |
| Text.SplitFirst | src/Services/Coding.Worker/Services/ClaimContextBuilder.cs:203-214 | nothing exactly when the separator is absent; otherwise the text before its first occurrence and the rest |
| Text.SplitFirstOf | src/Services/Coding.Worker/Services/ClaimContextBuilder.cs:203-214 | splitting a text built around a first separator gives back its two sides |
| Text.ParseInt | src/Services/Coding.Worker/Services/ClaimContextBuilder.cs:216 | a parsed number lies in the 32-bit range |
| Text.ParseIntOfIntToString | src/Services/Coding.Worker/Services/ClaimContextBuilder.cs:216 | every 32-bit number's decimal text parses back to it |
| Text.PadD4Value | src/Services/Coding.Worker/Services/ClaimContextBuilder.cs:85 | the four-or-more digit padded text of a number reads back as that number |
| Text.TakeAtMost | src/Services/Coding.Worker/Services/ClaimContextBuilder.cs:247 | the first n characters, or the whole text when it is shorter |
| RulesModel.RuleOutcome.constructor | src/Services/Coding.Worker/Contracts/RuleEvaluationResult.cs:13-26 | a new outcome object holds exactly the given field values |
| RulesModel.RuleOutcome.Assign | src/Services/Coding.Worker/Contracts/RuleEvaluationResult.cs:13-26 | every field of the object is overwritten with the given values |
| RulesModel.RuleOutcome.Force | src/Services/Coding.Worker/Services/AuthRuleValidator.cs:19-26 | the in-place update all category validators perform: the object's new value is `Forced` of its old value |
| RulesModel.Forced | src/Services/Coding.Worker/Services/FrequencyRuleValidator.cs:22-28 | status, severity and action are replaced; the message is replaced only when it was blank; rule ID, version, layer, priority, category, pointers and facts are kept |
| RulesModel.RuleEvaluationResult.constructor | src/Services/Coding.Worker/Contracts/RuleEvaluationResult.cs:3-11 | a fresh result is Pass / NonBlocking with no actions, no winning rule, no outcomes and no notes |
| RulesModel.Views | src/Services/Coding.Worker/Contracts/RuleEvaluationResult.cs:9 | the values of a list of outcome objects, one per object, in order |
| RulesModel.ViewsAppend | src/Services/Coding.Worker/Contracts/RuleEvaluationResult.cs:9 | the values of two lists of outcome objects put together are the two lists of values put together |
| RulesModel.LayerOrdinal | src/Services/Coding.Worker/Services/RulesEngine.cs:9-15 | GLOBAL, NCCI_MUE and CLIENT, in any letter case, rank 0, 1 and 3 and nothing else does; every other layer, PAYER included, ranks 2 |
| RulesEngine.HeaderChecks | src/Services/Coding.Worker.Tests/RulesEngineTests.cs:177-198 | every missing-field outcome is a GLOBAL NeedsInfo / Blocking / RequestInfo outcome |
| RulesEngine.ModifierOutcome | src/Services/Coding.Worker.Tests/RulesEngineTests.cs:200-220 | the invalid-modifier outcome is a GLOBAL Warn / NonBlocking / RequestInfo outcome with rule ID GLOBAL_INVALID_MODIFIER |
| RulesEngine.ModifierChecksOf | src/Services/Coding.Worker.Tests/RulesEngineTests.cs:200-220 | at most one outcome per modifier of a procedure, every one an invalid-modifier outcome, and none exactly when every modifier is valid |
| RulesEngine.ModifierChecks | src/Services/Coding.Worker.Tests/RulesEngineTests.cs:200-220 | only invalid-modifier outcomes, and none exactly when every modifier of every procedure is valid |
| RulesEngine.Preflight | src/Services/Coding.Worker.Tests/RulesEngineTests.cs:177-220 | every preflight outcome is in layer GLOBAL and asks for information |
| RulesEngine.HasRuleIdAppend | src/Services/Coding.Worker.Tests/RulesEngineTests.cs:194-197 | a rule ID occurs in two lists put together exactly when it occurs in one of them |
| RulesEngine.HasRuleIdCheck | src/Services/Coding.Worker.Tests/RulesEngineTests.cs:194-197 | a conditional check reports its rule ID exactly when its condition holds |
| RulesEngine.PreflightIdsDistinct | src/Services/Coding.Worker.Tests/RulesEngineTests.cs:194-219 | the six preflight rule IDs are pairwise different |
| RulesEngine.HeaderChecksIds | src/Services/Coding.Worker.Tests/RulesEngineTests.cs:177-198 | a header check reports a rule ID exactly when the field that ID names is missing |
| RulesEngine.PreflightHeaderFlags | src/Services/Coding.Worker.Tests/RulesEngineTests.cs:177-198 | each of the missing DOS, payer, POS, rendering-NPI and billing-NPI outcomes is reported if and only if that header field is missing or blank |
| RulesEngine.PreflightModifierFlags | src/Services/Coding.Worker.Tests/RulesEngineTests.cs:200-220 | GLOBAL_INVALID_MODIFIER is reported if and only if some procedure carries a blank modifier or one that is not two characters long |
| RulesEngine.SelectRulePacksMembers | src/Services/Coding.Worker/Services/RulesEngine.cs:65-108 | when some pack matches payer, plan, state and date, the selection is exactly the matching packs; otherwise it is exactly the DEFAULT packs effective on the date of service |
| RulesEngine.LexLePair | src/Services/Coding.Worker/Services/RulesEngine.cs:78-79 | the two-part sort key compares the first part, then the second |
| RulesEngine.PackKeyOrder | src/Services/Coding.Worker/Services/RulesEngine.cs:78-79 | a list sorted by the pack key is in ascending layer order and, within a layer, in descending priority |
| RulesEngine.SelectRulePacksOrdered | src/Services/Coding.Worker/Services/RulesEngine.cs:72-83 | matched packs are returned in layer order GLOBAL, NCCI_MUE, PAYER, CLIENT and, within a layer, by descending priority |
| RulesEngine.TriggerMatchesExactly | src/Services/Coding.Worker/Services/RulesEngine.cs:110-163 | a rule matches exactly when each of its set conditions holds: some procedure code is listed, some diagnosis code is listed, some diagnosis starts with a prefix (with RequiresIcdMismatch: none does), the place of service is listed, the date of service is absent when RequiresDateOfService is set, the age is within the minimum and maximum, some single procedure carries every required modifier, and the rendering specialty is listed; all comparisons ignore case, and for a PosSpecialty rule a blank place of service or specialty passes |
| RulesEngine.MismatchInvertsPrefixes | src/Services/Coding.Worker/Services/RulesEngine.cs:122-126 | with prefixes set, RequiresIcdMismatch turns the prefix condition into its negation |
| RulesEngine.BlankPosExcusedOnlyForPosSpecialty | src/Services/Coding.Worker/Services/RulesEngine.cs:128-132 | a blank place of service against a list with no blank entry stops every rule outside the PosSpecialty category, and does not stop a PosSpecialty rule |
| RulesEngine.MatchingEvidenceIds | src/Services/Coding.Worker/Services/RulesEngine.cs:170-172 | the matching IDs are never more than the evidence entries |
| RulesEngine.MatchingEvidenceIdsMembers | src/Services/Coding.Worker/Services/RulesEngine.cs:170-172 | an ID is listed exactly when it belongs to an evidence entry whose source is, case-insensitively, one of the required sources |
| RulesEngine.EvidencePointers | src/Services/Coding.Worker/Services/RulesEngine.cs:167-173 | no pointers when the rule requires no evidence source, and never more pointers than evidence entries |
| RulesEngine.EvidencePointersMembers | src/Services/Coding.Worker/Services/RulesEngine.cs:167-173 | the pointers are exactly the IDs of the claim evidence whose source is required |
| RulesEngine.BuildOutcome | src/Services/Coding.Worker/Services/RulesEngine.cs:165-197 | the outcome copies rule ID, version, priority, category, status, severity and action from the rule and the layer from the pack; its message is the rule's, or the evidence requirement's when the rule's is blank; its pointers are the evidence pointers |
| RulesEngine.StandardValidators | src/Services/Coding.Worker.Tests/RuleCategoryValidatorTests.cs:12-157 | the service registers validators for exactly the Auth, Frequency and PosSpecialty categories |
| RulesEngine.StandardValidatorsKeepIdentity | src/Services/Coding.Worker/Services/AuthRuleValidator.cs:10-29 | none of the three validators changes rule ID, version, layer, priority, category, pointers or facts |
| RulesEngine.Validate | src/Services/Coding.Worker/Services/AuthRuleValidator.cs:10-29 | an outcome whose category has no registered validator is unchanged, and identity-keeping validators keep its identity fields |
| RulesEngine.FiredRule | src/Services/Coding.Worker/Services/RulesEngine.cs:39-48 | a rule contributes one outcome if and only if its trigger matches, and none otherwise |
| RulesEngine.FiredIsFilter | src/Services/Coding.Worker/Services/RulesEngine.cs:39-48 | a pack's outcomes are the outcomes of its firing rules in descending priority order |
| RulesEngine.FiredMembers | src/Services/Coding.Worker/Services/RulesEngine.cs:39-48 | an outcome belongs to a pack's outcomes exactly when it is the validated outcome of a rule of the pack whose trigger matches |
| RulesEngine.FiredAllMembers | src/Services/Coding.Worker/Services/RulesEngine.cs:37-49 | the outcomes of a list of packs are exactly the outcomes of the firing rules of those packs |
| RulesEngine.OutcomeOfKeepsKey | src/Services/Coding.Worker/Services/RulesEngine.cs:180 | an outcome keeps its rule's priority through identity-keeping validation |
| RulesEngine.OutcomeKeyOrder | src/Services/Coding.Worker/Services/RulesEngine.cs:39 | outcomes sorted by their key have non-increasing priorities |
| RulesEngine.FiredByPriority | src/Services/Coding.Worker/Services/RulesEngine.cs:39 | within one pack, outcomes come in non-increasing priority |
| RulesEngine.WinKey | src/Services/Coding.Worker/Services/RulesEngine.cs:201-205 | the winning-rule key has the four parts blocking, failing, layer ordinal and priority |
| RulesEngine.WinnerIndex | src/Services/Coding.Worker/Services/RulesEngine.cs:199-207 | the winner is an index into the non-empty list of outcomes |
| RulesEngine.LexLe4 | src/Services/Coding.Worker/Services/RulesEngine.cs:201-205 | the four-part key compares blocking, then failing, then layer, then priority |
| RulesEngine.WinnerIsBest | src/Services/Coding.Worker/Services/RulesEngine.cs:199-207 | no outcome beats the winner: an outcome is blocking only if the winner is; with equal blocking a failing outcome forces a failing winner; then no outcome has a later layer; then no outcome has a higher priority; an earlier outcome never has the winner's key |
| RulesEngine.WinnerIsHeadOfDescendingSort | src/Services/Coding.Worker/Services/RulesEngine.cs:199-207 | the winner is the first element of the stable descending sort by the four keys, which is what the LINQ chain takes |
| RulesEngine.Aggregate | src/Services/Coding.Worker/Services/RulesEngine.cs:209-234 | the aggregate status is one of Fail, NeedsInfo, Warn or Pass, and its severity is Blocking exactly when the status is Fail |
| RulesEngine.AggregateDominates | src/Services/Coding.Worker/Services/RulesEngine.cs:209-234 | the aggregate is at least as severe as every outcome that is not a Fail, and any Fail / Blocking outcome makes it Fail / Blocking |
| RulesEngine.LoneNonBlockingFailPasses | src/Services/Coding.Worker/Services/RulesEngine.cs:211-233 | a single non-blocking Fail outcome aggregates to Pass / NonBlocking |
| RulesEngine.AnyWithAppend | src/Services/Coding.Worker/Services/RulesEngine.cs:211-225 | some outcome of two lists put together has a property exactly when some outcome of one of them has it |
| RulesEngine.AggregateMonotone | src/Services/Coding.Worker/Services/RulesEngine.cs:209-234 | adding outcomes never makes the aggregate less severe |
| RulesEngine.AnyWithPermutation | src/Services/Coding.Worker/Services/RulesEngine.cs:211-225 | whether some outcome has a property does not depend on the order of the outcomes |
| RulesEngine.AggregatePermutation | src/Services/Coding.Worker/Services/RulesEngine.cs:209-234 | the aggregate depends only on which outcomes there are, not on their order |
| RulesEngine.Actions | src/Services/Coding.Worker/Services/RulesEngine.cs:58 | each fired action is listed exactly once, only fired actions are listed, and they are listed in the order of their first appearance among the outcomes |
| RulesEngine.ActionsOrdered | src/Services/Coding.Worker/Services/RulesEngine.cs:58 | keeping the first of each action keeps them in the order of their first appearance |
| RulesEngine.ActionsMembers | src/Services/Coding.Worker/Services/RulesEngine.cs:58 | an action is kept exactly when some outcome fired it |
| RulesEngine.EvaluationOf | src/Services/Coding.Worker/Services/RulesEngine.cs:24-63 | the outcomes are the preflight outcomes followed by the outcomes of the selected packs, and the no-packs note is present exactly when no pack is selected |
| RulesEngine.Summary | src/Services/Coding.Worker/Services/RulesEngine.cs:26-63 | there is a winner exactly when some outcome is reported, and the winner is the first best outcome; the status and severity are the aggregate of the outcomes and the actions are their distinct actions, in order of first appearance (`Actions`); the no-packs note is present exactly when no pack is selected, the no-rules note exactly when packs were selected but nothing is reported |
| RulesEngine.EvaluationOutcomes | src/Services/Coding.Worker/Services/RulesEngine.cs:35-57 | every reported outcome is a preflight outcome or the outcome of a firing rule of a selected pack, and conversely |
| RulesEngine.FiringRuleReported | src/Services/Coding.Worker/Services/RulesEngine.cs:37-48 | the validated outcome of every firing rule of every selected pack is reported |
| RulesEngine.NoPacksConfigured | src/Services/Coding.Worker/Services/RulesEngine.cs:28-33 | with no configured pack the result notes that no pack applies and reports only the preflight outcomes; a claim that passes every preflight check stays Pass / NonBlocking with no winning rule, and one without a date of service needs information and has a winner |
| RulesEngine.NoEffectivePack | src/Services/Coding.Worker.Tests/RulesEngineTests.cs:87-124 | when no pack is effective on the date of service, not even a DEFAULT pack is used: the result notes that no pack applies, reports only the preflight outcomes, and is Pass with no winner when those are empty |
| RulesEngine.NoPackSelected | src/Services/Coding.Worker/Services/RulesEngine.cs:28-33 | when no pack is selected only the preflight outcomes are reported and they decide: NeedsInfo exactly when a header field is missing, Warn exactly when no header field is missing but a modifier is invalid, Pass exactly when no preflight check reports; never blocking; a winner exactly when something is reported |
| RulesEngine.PreflightAggregate | src/Services/Coding.Worker/Services/RulesEngine.cs:209-234 | the preflight outcomes alone aggregate to NeedsInfo when a header field is missing, otherwise to Warn when a modifier is invalid, otherwise to Pass, always NonBlocking |
| RulesEngine.HeaderChecksEmpty | src/Services/Coding.Worker.Tests/RulesEngineTests.cs:177-198 | the header checks report nothing exactly when the date of service is set and the payer, place of service and both NPIs are non-blank |
| RulesEngine.Engine.constructor | src/Services/Coding.Worker.Tests/RulesEngineTests.cs:14 | the engine holds the given rule packs and category validators |
| RulesEngine.Engine.Dispatch | src/Services/Coding.Worker/Services/AuthRuleValidator.cs:10-29 | the outcome object's new value is the validation of its old value by the validator of the rule's category |
| RulesEngine.Engine.RunRule | src/Services/Coding.Worker/Services/RulesEngine.cs:41-47 | a new outcome object when the rule fires, holding its validated outcome, and none otherwise |
| RulesEngine.Engine.EvaluatePack | src/Services/Coding.Worker/Services/RulesEngine.cs:39-48 | one new outcome object per firing rule of the pack, by descending priority |
| RulesEngine.Engine.AppendRule | src/Services/Coding.Worker/Services/RulesEngine.cs:41-47 | the list is extended by the rule's outcome object when it fires |
| RulesEngine.Engine.EvaluatePacks | src/Services/Coding.Worker/Services/RulesEngine.cs:37-49 | the outcome objects of all selected packs, pack after pack |
| RulesEngine.Engine.AppendPack | src/Services/Coding.Worker/Services/RulesEngine.cs:37-49 | the list is extended by the outcome objects of one pack |
| RulesEngine.Engine.CollectOutcomes | src/Services/Coding.Worker/Services/RulesEngine.cs:28-49 | the selected packs are the pack selection, and the outcome objects hold the preflight outcomes followed by those of every selected pack |
| RulesEngine.Engine.Evaluate | src/Services/Coding.Worker/Services/RulesEngine.cs:24-63 | a fresh result object that reports exactly the evaluation function's status, severity, actions, winner, outcomes and notes |
| RulesEngineScenarios.FirstRuleReported | src/Services/Coding.Worker/Services/RulesEngine.cs:37-48 | when the first rule of an applicable pack fires, its outcome is reported |
| RulesEngineScenarios.ReturnsNoPacksWhenNoneConfigured | src/Services/Coding.Worker.Tests/RulesEngineTests.cs:11-28 | a fully populated claim with no configured pack passes every preflight check, is Pass and notes that no pack applies |
| RulesEngineScenarios.FiresMatchingRule | src/Services/Coding.Worker.Tests/RulesEngineTests.cs:30-85 | a CPT 71260 rule with ICD prefix R07 fires on a claim with 71260 and R07.9 and reports AutoRelease |
| RulesEngineScenarios.ChestRuleFires | src/Services/Coding.Worker.Tests/RulesEngineTests.cs:44-61 | that rule's trigger matches that claim and its outcome's action is AutoRelease |
| RulesEngineScenarios.RespectsEffectiveDates | src/Services/Coding.Worker.Tests/RulesEngineTests.cs:87-124 | a DEFAULT pack effective only in 2025 does not apply to a claim of 2024-06-01 |
| RulesEngineScenarios.TriggersWhenDateOfServiceMissing | src/Services/Coding.Worker.Tests/RulesEngineTests.cs:126-175 | a GLOBAL rule requiring the date of service reports NeedsInfo / RequestInfo on a claim without one |
| RulesEngineScenarios.DosRuleFires | src/Services/Coding.Worker.Tests/RulesEngineTests.cs:140-155 | that rule's trigger matches that claim and its outcome is NeedsInfo / RequestInfo in layer GLOBAL |
| RulesEngineScenarios.FlagsMissingRequiredHeaderFields | src/Services/Coding.Worker.Tests/RulesEngineTests.cs:177-198 | blank payer, place of service and provider NPIs are each reported, and the claim needs information |
| RulesEngineScenarios.FlagsInvalidModifierFormat | src/Services/Coding.Worker.Tests/RulesEngineTests.cs:200-220 | the modifiers "2" and "ABC" are reported as invalid |
| RulesEngineScenarios.AuthValidatorRequiresEvidence | src/Services/Coding.Worker.Tests/RuleCategoryValidatorTests.cs:12-64 | an Auth rule requiring source "Auth" on a claim without evidence reports AUTH_REQUIRED as NeedsInfo / RequestInfo |
| RulesEngineScenarios.AuthRuleFires | src/Services/Coding.Worker.Tests/RuleCategoryValidatorTests.cs:12-64 | that rule fires and its validated outcome is NeedsInfo / RequestInfo |
| RulesEngineScenarios.FrequencyValidatorRoutesPredicted | src/Services/Coding.Worker.Tests/RuleCategoryValidatorTests.cs:66-109 | a Frequency rule without a threshold reports FREQ_CHECK as NeedsInfo / RoutePredicted |
| RulesEngineScenarios.FreqRuleFires | src/Services/Coding.Worker.Tests/RuleCategoryValidatorTests.cs:66-109 | that rule fires and its validated outcome is NeedsInfo / RoutePredicted |
| RulesEngineScenarios.PosSpecialtyValidatorRequiresPos | src/Services/Coding.Worker.Tests/RuleCategoryValidatorTests.cs:111-157 | a PosSpecialty rule for POS 11 fires on a claim without a place of service and reports POS_CHECK as NeedsInfo / RequestInfo |
| RulesEngineScenarios.PosRuleFires | src/Services/Coding.Worker.Tests/RuleCategoryValidatorTests.cs:111-157 | that rule fires although the claim has no place of service, and its validated outcome is NeedsInfo / RequestInfo |
| AuthRuleValidator.Refine | src/Services/Coding.Worker/Services/AuthRuleValidator.cs:10-29 | a rule without required evidence sources, or an outcome that points at evidence and not at the missing-evidence marker, is left unchanged; otherwise the outcome becomes NeedsInfo / Blocking / RequestInfo, keeps a non-blank message or takes the authorization message, and keeps its identity fields |
| AuthRuleValidator.RefineIdempotent | src/Services/Coding.Worker/Services/AuthRuleValidator.cs:10-29 | validating an outcome twice gives the same outcome as validating it once |
| AuthRuleValidator.RefineBlocksOrKeeps | src/Services/Coding.Worker/Services/AuthRuleValidator.cs:17-26 | Auth validation either leaves the outcome unchanged or makes it blocking |
| AuthRuleValidator.Validate | src/Services/Coding.Worker/Services/AuthRuleValidator.cs:10-29 | returns the outcome object it was given, whose new value is the refinement of its old value |
| FrequencyRuleValidator.FakeHistory | src/Services/Coding.Worker/Services/FakeUtilizationHistoryService.cs:5-9 | the fake history service never finds a previous procedure |
| FrequencyRuleValidator.FirstProcedureCode | src/Services/Coding.Worker/Services/FrequencyRuleValidator.cs:44 | the code of the claim's first procedure, or the empty string when the claim has none |
| FrequencyRuleValidator.Decide | src/Services/Coding.Worker/Services/FrequencyRuleValidator.cs:17-79 | which branch the validator takes: no threshold exactly when MinDaysSinceLast is unset; no date exactly when a threshold is set and the date of service is missing; no patient exactly when both are set and the first procedure code or the patient id is blank; no history exactly when both are non-blank and the lookup finds nothing; too soon only with a recorded last date and fewer elapsed days than the threshold; enough only when the elapsed days reach the threshold |
| FrequencyRuleValidator.Refine | src/Services/Coding.Worker/Services/FrequencyRuleValidator.cs:17-79 | identity fields and a non-blank message are always kept; no threshold, no patient and no history give NeedsInfo / NonBlocking / RoutePredicted; no date gives NeedsInfo / Blocking / RequestInfo; too soon gives Warn / NonBlocking / RoutePredicted; a blank message becomes the branch's own message; the outcome is unchanged when enough days have passed |
| FrequencyRuleValidator.RefineSeverity | src/Services/Coding.Worker/Services/FrequencyRuleValidator.cs:19-79 | of the refining branches only the missing date of service blocks, and it asks for information |
| FrequencyRuleValidator.FakeHistoryRoutes | src/Services/Coding.Worker/Services/FrequencyRuleValidator.cs:57-66 | with the fake history service a rule is never satisfied and never too soon: the outcome always ends NeedsInfo |
| FrequencyRuleValidator.TooSoonWarns | src/Services/Coding.Worker/Services/FrequencyRuleValidator.cs:68-77 | a procedure repeated too soon gives Warn / NonBlocking / RoutePredicted, and a blank message becomes the frequency-limit message naming the code and the elapsed days |
| FrequencyRuleValidator.RefineIdempotent | src/Services/Coding.Worker/Services/FrequencyRuleValidator.cs:17-79 | validating an outcome twice gives the same outcome as validating it once |
| FrequencyRuleValidator.Validate | src/Services/Coding.Worker/Services/FrequencyRuleValidator.cs:17-80 | returns the outcome object it was given, whose new value is the refinement of its old value under the given history service |
| PosSpecialtyRuleValidator.Refine | src/Services/Coding.Worker/Services/PosSpecialtyRuleValidator.cs:10-33 | when neither check fires the outcome is unchanged; when either fires it becomes NeedsInfo / Blocking / RequestInfo; identity fields and a non-blank message are kept |
| PosSpecialtyRuleValidator.RefineMessage | src/Services/Coding.Worker/Services/PosSpecialtyRuleValidator.cs:17-29 | a blank message becomes the place-of-service message when that check fires, which wins over the specialty message, and the specialty message when only the specialty check fires |
| PosSpecialtyRuleValidator.RefineIdempotent | src/Services/Coding.Worker/Services/PosSpecialtyRuleValidator.cs:10-33 | validating an outcome twice gives the same outcome as validating it once |
| PosSpecialtyRuleValidator.Validate | src/Services/Coding.Worker/Services/PosSpecialtyRuleValidator.cs:10-33 | returns the outcome object it was given, whose new value is the refinement of its old value |
| RulesOptionsValidator.HeaderProblems | src/Services/Coding.Worker/Services/RulesOptionsValidator.cs:11-29 | a missing PackId, a missing Layer, an invalid layer (only when the layer is not blank) and a start date after the end date are each reported if and only if they hold; every such problem names the pack |
| RulesOptionsValidator.RuleChecksMembers | src/Services/Coding.Worker/Services/RulesOptionsValidator.cs:34-66 | the checks of one rule report exactly its problems: empty or repeated RuleId, undefined category, status, severity or action, and empty trigger |
| RulesOptionsValidator.Flagged | src/Services/Coding.Worker/Services/RulesOptionsValidator.cs:31-41 | each rule is paired with whether its RuleId repeats an earlier one of the same pack |
| RulesOptionsValidator.RuleProblemsMembers | src/Services/Coding.Worker/Services/RulesOptionsValidator.cs:32-67 | a rule problem of a pack belongs to exactly one of its rules, the rule it is about |
| RulesOptionsValidator.ProblemsMembers | src/Services/Coding.Worker/Services/RulesOptionsValidator.cs:9-68 | every problem of the catalog is a problem of one of its packs, and conversely |
| RulesOptionsValidator.PackHeaderProblems | src/Services/Coding.Worker/Services/RulesOptionsValidator.cs:11-29 | the pack-level problems of a pack are exactly those of its own fields |
| RulesOptionsValidator.PackProblemsNamePack | src/Services/Coding.Worker/Services/RulesOptionsValidator.cs:13-65 | every message of a pack names that pack |
| RulesOptionsValidator.RuleAccepted | src/Services/Coding.Worker/Services/RulesOptionsValidator.cs:34-66 | a rule has no problems if and only if it is well formed |
| RulesOptionsValidator.PackAccepted | src/Services/Coding.Worker/Services/RulesOptionsValidator.cs:11-67 | a pack has no problems if and only if it is well formed |
| RulesOptionsValidator.CatalogAccepted | src/Services/Coding.Worker/Services/RulesOptionsValidator.cs:9-73 | the catalog is accepted if and only if every pack in it is well formed |
| RulesOptionsValidator.EqualDatesAccepted | src/Services/Coding.Worker/Services/RulesOptionsValidator.cs:25-26 | equal start and end dates are not reported |
| RulesOptionsValidator.DuplicateRuleIds | src/Services/Coding.Worker/Services/RulesOptionsValidator.cs:31-41 | a duplicate RuleId is reported in a pack if and only if a later rule of that pack repeats, ignoring case, a non-blank RuleId of an earlier one |
| RulesOptionsValidator.DuplicatesArePerPack | src/Services/Coding.Worker/Services/RulesOptionsValidator.cs:31 | the RuleId set is per pack: a reported duplicate repeats a RuleId of the same pack |
| RulesOptionsValidator.ValidLayerRanks | src/Services/Coding.Worker/Services/RulesOptionsValidator.cs:76-82 | of the four valid layers only PAYER takes the engine's default rank 2 |
| RulesOptionsValidator.EmptyTriggerMatchesEveryClaim | src/Services/Coding.Worker/Services/RulesOptionsValidator.cs:84-97 | a rule with an empty trigger matches every claim |
| RulesOptionsValidator.ValidateOrThrow | src/Services/Coding.Worker/Services/RulesOptionsValidator.cs:5-74 | the catalog is accepted if and only if it has no problems; otherwise it is rejected with the problem messages joined by single spaces |
| RulesOptionsValidator.CheckPack | src/Services/Coding.Worker/Services/RulesOptionsValidator.cs:11-67 | one pass of the pack loop finds exactly the pack's problems |
| RulesOptionsValidator.CheckPackFields | src/Services/Coding.Worker/Services/RulesOptionsValidator.cs:11-29 | finds exactly the problems of the pack's own fields |
| RulesOptionsValidator.CheckRules | src/Services/Coding.Worker/Services/RulesOptionsValidator.cs:31-67 | the rule loop finds exactly the rule problems of the pack |
| RulesOptionsValidator.CheckRule | src/Services/Coding.Worker/Services/RulesOptionsValidator.cs:34-66 | finds the problems of one rule and adds its RuleId to the set of the RuleIds seen, ignoring case |
| RulesOptionsValidator.AddIf | src/Services/Coding.Worker/Services/RulesOptionsValidator.cs:11-14 | the error list is extended by the problem exactly when the condition holds |
| RulesOptionsValidator.SeenAmongNext | src/Services/Coding.Worker/Services/RulesOptionsValidator.cs:38 | the RuleIds seen after a rule are those seen before it plus its own non-blank RuleId |
| RulesOptionsValidator.RepeatIsSeen | src/Services/Coding.Worker/Services/RulesOptionsValidator.cs:38 | a non-blank RuleId repeats an earlier one if and only if its lower-cased form is already in the set |
| ClaimContextBuilder.TryParseSpan | src/Services/Coding.Worker/Services/ClaimContextBuilder.cs:197-217 | a parsed start and end are 32-bit integers |
| ClaimContextBuilder.TryParseSpanOf | src/Services/Coding.Worker/Services/ClaimContextBuilder.cs:197-217 | a span of the form section, ':', first number, '-', second number parses exactly when both numbers are integer texts, and gives back the section and both numbers |
| ClaimContextBuilder.TryParseSpanOfFormatted | src/Services/Coding.Worker/Services/ClaimContextBuilder.cs:197-217 | the spans the concept extractor writes, section ':' start '-' end with a non-negative start, parse back to their three parts |
| ClaimContextBuilder.SafeSnippet | src/Services/Coding.Worker/Services/ClaimContextBuilder.cs:219-237 | empty for blank content, a negative start, an empty range or a start past the end; otherwise the trimmed text of the range with its end clamped to the content; never longer than the range |
| ClaimContextBuilder.SafeSnippetInside | src/Services/Coding.Worker/Services/ClaimContextBuilder.cs:219-237 | a snippet is always a piece of the content |
| ClaimContextBuilder.LimitSnippet | src/Services/Coding.Worker/Services/ClaimContextBuilder.cs:239-248 | a prefix of the trimmed content of at most 200 characters, the whole trimmed content when it fits, and empty exactly for blank content |
| ClaimContextBuilder.UnparsedSpanIsItsOwnSnippet | src/Services/Coding.Worker/Services/ClaimContextBuilder.cs:169-172 | a non-blank span that does not parse is its own snippet |
| ClaimContextBuilder.ExtractSnippetBounded | src/Services/Coding.Worker/Services/ClaimContextBuilder.cs:162-195 | a snippet is the span itself, at most 200 characters, or no longer than the parsed range |
| ClaimContextBuilder.Tagged | src/Services/Coding.Worker/Services/ClaimContextBuilder.cs:81-159 | each span of a group paired with the group's source name, in order |
| ClaimContextBuilder.Numbered | src/Services/Coding.Worker/Services/ClaimContextBuilder.cs:78-160 | the i-th evidence entry has identifier EVID-i in four digits, the entry's source and the snippet of its span |
| ClaimContextBuilder.EvidenceIdsDistinct | src/Services/Coding.Worker/Services/ClaimContextBuilder.cs:85 | different running indexes give different evidence identifiers |
| ClaimContextBuilder.EvidenceOfIdsDistinct | src/Services/Coding.Worker/Services/ClaimContextBuilder.cs:78-160 | the evidence identifiers of a claim are pairwise different |
| ClaimContextBuilder.IndicationEvidenceFirst | src/Services/Coding.Worker/Services/ClaimContextBuilder.cs:80-89 | the indication spans come first, numbered from EVID-0000, each with its own snippet |
| ClaimContextBuilder.BuildEvidence | src/Services/Coding.Worker/Services/ClaimContextBuilder.cs:78-160 | the eight span groups Indication, Modality, BodyRegion, Contrast, ViewsOrCompleteness, Laterality, Guidance and Intervention in order, with one running index |
| ClaimContextBuilder.AddGroup | src/Services/Coding.Worker/Services/ClaimContextBuilder.cs:81-89 | one group's loop extends the evidence by the group's spans, numbered on from the running index |
| ClaimContextBuilder.NumberedAppend | src/Services/Coding.Worker/Services/ClaimContextBuilder.cs:85 | numbering one more entry appends it with the next index |
| ClaimContextBuilder.BuildProcedures | src/Services/Coding.Worker/Services/ClaimContextBuilder.cs:32-55 | one procedure per primary CPT, then one per add-on, each with one unit, the selection's code and modifiers and the encounter's laterality |
| ClaimContextBuilder.BuildDiagnoses | src/Services/Coding.Worker/Services/ClaimContextBuilder.cs:57-76 | the final primary ICD as the only principal diagnosis when there is one, then every secondary candidate as a non-principal diagnosis, in order |
| ClaimContextBuilder.HeaderOf | src/Services/Coding.Worker/Services/ClaimContextBuilder.cs:15-20 | the payer, or DEFAULT when it is blank; the PlaceOfService section, or empty; the date of service; the provider NPIs stay empty |
| ClaimContextBuilder.Build | src/Services/Coding.Worker/Services/ClaimContextBuilder.cs:8-30 | the built claim's header, procedures, diagnoses and evidence are exactly the ones described above, and the patient stays empty |
| ClaimContextBuilder.BuiltClaimPreflight | src/Services/Coding.Worker/Services/ClaimContextBuilder.cs:13-21 | a built claim is never missing a payer, is always missing both provider NPIs, and is missing a place of service exactly when the encounter has no non-blank PlaceOfService section |
| ClaimContextBuilder.OnlySpanEvidence | src/Services/Coding.Worker/Services/ClaimContextBuilder.cs:78-160 | an encounter with one span gets one evidence entry EVID-0000 from that span's group |
| ClaimContextBuilder.SnippetFromSections | src/Services/Coding.Worker.Tests/ClaimContextBuilderTests.cs:10-27 | an indication span 0-4 over the report "Pain" gives the snippet "Pain" |
| ClaimContextBuilder.SnippetFromReportSpan | src/Services/Coding.Worker.Tests/ClaimContextBuilderTests.cs:30-43 | the span Report:2-6 over the report "0123456789" gives "2345" |
| ClaimContextBuilder.SnippetFallsBackToSpan | src/Services/Coding.Worker.Tests/ClaimContextBuilderTests.cs:46-58 | with no report text and no matching section the span itself is the snippet |
| ClaimContextBuilder.GroupNames | src/Services/Coding.Worker/Services/ClaimContextBuilder.cs:86-96 | the first two evidence groups are Indication and Modality |
| ClaimContextBuilder.PainSnippet | src/Services/Coding.Worker.Tests/ClaimContextBuilderTests.cs:10-27 | the snippet of Indication:0-4 over "Pain" is "Pain" |
| ClaimContextBuilder.DigitsSnippet | src/Services/Coding.Worker.Tests/ClaimContextBuilderTests.cs:30-43 | the snippet of Report:2-6 over "0123456789" is "2345" |
| ClaimContextBuilder.FallbackSnippet | src/Services/Coding.Worker.Tests/ClaimContextBuilderTests.cs:46-58 | the snippet of Report:10-20 with no text and no sections is the span |
| ClaimContextBuilder.IndicationSpanParses | src/Services/Coding.Worker/Services/ClaimContextBuilder.cs:197-217 | "Indication:0-4" parses to Indication, 0, 4 |
| ClaimContextBuilder.ReportSpanParses | src/Services/Coding.Worker/Services/ClaimContextBuilder.cs:197-217 | "Report:2-6" parses to Report, 2, 6 |
| ClaimContextBuilder.LongSpanParses | src/Services/Coding.Worker/Services/ClaimContextBuilder.cs:197-217 | "Report:10-20" parses to Report, 10, 20 |
| ClaimContextBuilder.PainSafeSnippet | src/Services/Coding.Worker/Services/ClaimContextBuilder.cs:219-237 | the safe snippet 0-4 of "Pain" is "Pain" |
| ClaimContextBuilder.DigitsSafeSnippet | src/Services/Coding.Worker/Services/ClaimContextBuilder.cs:219-237 | the safe snippet 2-6 of "0123456789" is "2345" |
| ClaimContextBuilder.SmallNumberParses | src/Services/Coding.Worker/Services/ClaimContextBuilder.cs:216 | the decimal text of every number below 100 parses back to it |
| RadiologyCptCoding.ContrastRows | src/Services/Coding.Worker/Services/RadiologyCptCodingService.cs:108-133 | the three contrast states, in any letter case, select their row, and any other state selects none |
| RadiologyCptCoding.ContrastTables | src/Services/Coding.Worker/Services/RadiologyCptCodingService.cs:108-133 | CT chest, CT abdomen/pelvis and MRI shoulder have a code exactly for the three known contrast states: 71250/74176/73221 without, 71260/74177/73222 with, 71270/74178/73223 with and without |
| RadiologyCptCoding.UsAbdomenRows | src/Services/Coding.Worker/Services/RadiologyCptCodingService.cs:135-141 | US_COMPLETE gives 76700 and US_LIMITED gives 76705, in any case, and nothing else gives a code |
| RadiologyCptCoding.XrKneeRows | src/Services/Coding.Worker/Services/RadiologyCptCodingService.cs:143-150 | VIEWS_2, VIEWS_3 and VIEWS_4_PLUS give 73560, 73562 and 73564, in any case, and nothing else gives a code |
| RadiologyCptCoding.MapIrProcedure | src/Services/Coding.Worker/Services/RadiologyCptCodingService.cs:152-169 | a code exactly when the report mentions a drainage or a biopsy: 49406 for a drainage, which wins, else 49180 |
| RadiologyCptCoding.GuidanceChoice | src/Services/Coding.Worker/Services/RadiologyCptCodingService.cs:171-190 | a guidance code exactly when a guidance keyword occurs or the study is an ultrasound: 77012 for CT guidance, then 76942 for ultrasound, then 77002 for fluoroscopy only |
| RadiologyCptCoding.EvidenceDeduplicated | src/Services/Coding.Worker/Services/RadiologyCptCodingService.cs:205-216 | the coding evidence has no two spans equal ignoring case, takes every span from the seven lists and covers each of their spans; each kept span is the first of its spelling class, and the kept spans are in the order those classes first appear |
| RadiologyCptCoding.EvidenceCovers | src/Services/Coding.Worker/Services/RadiologyCptCodingService.cs:205-216 | every span of the seven lists equals, ignoring case, some kept span |
| RadiologyCptCoding.BuildModifiers | src/Services/Coding.Worker/Services/RadiologyCptCodingService.cs:218-245 | the component modifier, then the laterality modifier |
| RadiologyCptCoding.LateralityExtension | src/Services/Coding.Worker/Services/RadiologyCptCodingService.cs:231-242 | the laterality switch |
| RadiologyCptCoding.BillingModifierChosen | src/Services/Coding.Worker/Services/RadiologyCptCodingService.cs:221-229 | 26 exactly for a professional and TC exactly for a technical billing context, ignoring case, and at most one |
| RadiologyCptCoding.LateralityModifierChosen | src/Services/Coding.Worker/Services/RadiologyCptCodingService.cs:231-242 | RT, LT and 50 exactly for a right, left and bilateral study, ignoring case, and at most one |
| RadiologyCptCoding.ModifiersChosen | src/Services/Coding.Worker/Services/RadiologyCptCodingService.cs:218-245 | each of 26, TC, RT, LT and 50 is present exactly for its billing context or laterality, and there are at most two modifiers |
| RadiologyCptCoding.Branches | src/Services/Coding.Worker/Services/RadiologyCptCodingService.cs:21-93 | the six primary branches Generate tries |
| RadiologyCptCoding.BranchRuleIds | src/Services/Coding.Worker/Services/RadiologyCptCodingService.cs:28-92 | each branch carries its own rule ID |
| RadiologyCptCoding.RuleIdsDistinct | src/Services/Coding.Worker/Services/RadiologyCptCodingService.cs:28-92 | the six rule IDs are pairwise different |
| RadiologyCptCoding.Generate | src/Services/Coding.Worker/Services/RadiologyCptCodingService.cs:15-106 | the coding result is the one the branch table describes |
| RadiologyCptCoding.AddBranch | src/Services/Coding.Worker/Services/RadiologyCptCodingService.cs:23-33 | one branch adds its selection when its table gives a code and its exclusion reason when it gives none, and changes nothing else |
| RadiologyCptCoding.SelectedMembers | src/Services/Coding.Worker/Services/RadiologyCptCodingService.cs:21-93 | the selections of a branch list are exactly those of its applicable branches with a code |
| RadiologyCptCoding.ExcludedMembers | src/Services/Coding.Worker/Services/RadiologyCptCodingService.cs:21-93 | the exclusion reasons of a branch list are exactly those of its applicable branches without a code |
| RadiologyCptCoding.ExcludedBranch | src/Services/Coding.Worker/Services/RadiologyCptCodingService.cs:29-33 | an applicable branch without a code leaves its reason and no selection under its rule ID |
| RadiologyCptCoding.BranchAccounting | src/Services/Coding.Worker/Services/RadiologyCptCodingService.cs:21-93 | each applicable table branch adds exactly one entry, a code or a reason, and the interventional branch a code or nothing |
| RadiologyCptCoding.SelectionsUnder | src/Services/Coding.Worker/Services/RadiologyCptCodingService.cs:21-93 | a selection under a branch's rule ID is that branch's own, and there is one exactly when the branch applies with a code |
| RadiologyCptCoding.PrimaryMembers | src/Services/Coding.Worker/Services/RadiologyCptCodingService.cs:21-93 | the primary codes are exactly those of the applicable branches with a code, each with version 1.0, the deduplicated evidence and the encounter's modifiers |
| RadiologyCptCoding.ExclusionMembers | src/Services/Coding.Worker/Services/RadiologyCptCodingService.cs:21-87 | the exclusion reasons are exactly those of the applicable branches without a code |
| RadiologyCptCoding.HumanReview | src/Services/Coding.Worker/Services/RadiologyCptCodingService.cs:104 | review is required exactly when no branch gave a code |
| RadiologyCptCoding.CodingAccounting | src/Services/Coding.Worker/Services/RadiologyCptCodingService.cs:21-93 | primary codes plus exclusion reasons number the applicable table branches, plus one when the interventional branch finds a procedure |
| RadiologyCptCoding.AddOnCoding | src/Services/Coding.Worker/Services/RadiologyCptCodingService.cs:95-102 | at most one add-on, present exactly when the guidance flag is set and a guidance code is found; it has version 1.0, no modifiers and the guidance rule ID |
| RadiologyCptCoding.CtChestCoded | src/Services/Coding.Worker/Services/RadiologyCptCodingService.cs:21-34 | a CT chest study with a known contrast state gets its contrast code |
| RadiologyCptCoding.CtChestExcluded | src/Services/Coding.Worker/Services/RadiologyCptCodingService.cs:21-34 | a CT chest study with an unknown contrast state gets the chest exclusion reason and no chest code |
| RadiologyCptCoding.UnknownModalityNeedsReview | src/Services/Coding.Worker/Services/RadiologyCptCodingService.cs:21-104 | a study that is not CT, MRI, US, XR or IR, and has no intervention flag, gets no code and no reason and needs review |
| RadiologyCptCoding.DrainageBeforeBiopsy | src/Services/Coding.Worker/Services/RadiologyCptCodingService.cs:89-93 | an interventional study whose report mentions a drainage gets 49406 even when a biopsy is mentioned too |
| SafetyGate.Evaluate | src/Services/Coding.Worker/Services/SafetyGate.cs:7-34 | the gate result computed by the four checks in turn |
| SafetyGate.FlagsInOrder | src/Services/Coding.Worker/Services/SafetyGate.cs:9-31 | the flags are the raised ones in the order missing indication, low completeness, pack fallback, unknown modality |
| SafetyGate.RaisedEach | src/Services/Coding.Worker/Services/SafetyGate.cs:11-31 | each flag is raised by its own condition |
| SafetyGate.FlagConditions | src/Services/Coding.Worker/Services/SafetyGate.cs:9-33 | each of the four flags is present if and only if its condition holds (no indication or impression, a score below 0.70, the CONCEPT_PACK_FALLBACK_GLOBAL_ONLY warning in any case, a blank or UNKNOWN modality); no other flag appears and there are at most four |
| SafetyGate.CanAutoSelectExactly | src/Services/Coding.Worker/Services/SafetyGate.cs:33 | codes may be selected automatically if and only if there is an indication or impression, the score is at least 0.70, the fallback warning is absent and the modality is known |
| SafetyGate.IndicationCascade | src/Services/Coding.Worker/Services/SafetyGate.cs:36-61 | an indication text or an impression concept suffices; otherwise an Indication section decides on its own, and only without one does an Impression section count |
| SafetyGate.BlankIndicationSectionShadowsImpression | src/Services/Coding.Worker/Services/SafetyGate.cs:48-52 | a blank Indication section hides a written Impression section, so the gate flags a missing indication |
| SafetyGate.MissingIndicationBlocks | src/Services/Coding.Worker.Tests/SafetyGateTests.cs:10-23 | a CT encounter scored 0.95 without indication, impression or sections is blocked for the missing indication |
| SafetyGate.ImpressionAllows | src/Services/Coding.Worker.Tests/SafetyGateTests.cs:26-49 | the same encounter with an impression concept may be selected automatically |
| SafetyGate.LowCompletenessBlocks | src/Services/Coding.Worker.Tests/SafetyGateTests.cs:52-66 | a score of 0.69 blocks even with an indication |
| SafetyGate.PackFallbackBlocks | src/Services/Coding.Worker.Tests/SafetyGateTests.cs:69-84 | the global-only pack fallback warning blocks |
| SafetyGate.ModalityKnown | src/Services/Coding.Worker/Services/SafetyGate.cs:27-28 | CT is a known modality |
| RadiologyIcdPolicy.PrimaryEligibility | src/Services/Coding.Worker/Services/RadiologyIcdPolicy.cs:7-15 | a concept is eligible for primary if and only if it comes from the indication or the impression, ignoring case, and is not ruled out, not negative and not incidental |
| RadiologyIcdPolicy.PrimaryIsSecondary | src/Services/Coding.Worker/Services/RadiologyIcdPolicy.cs:7-33 | a primary candidate is always a secondary one, and a secondary candidate from the indication or the impression is a primary one |
| RadiologyIcdPolicy.PriorityOrder | src/Services/Coding.Worker/Services/RadiologyIcdPolicy.cs:17-30 | the priority is 0, 1 or 2, 0 exactly for impression concepts; every primary candidate ranks above concepts from other sections, and impression above indication |
| RadiologyIcdPolicy.ImpressionIsNotIndication | src/Services/Coding.Worker/Services/RadiologyIcdPolicy.cs:35-39 | no concept is both an impression and an indication concept |
| RadiologyIcdPolicy.IndicationRanksOne | src/Services/Coding.Worker/Services/RadiologyIcdPolicy.cs:24-27 | an indication concept has priority 1 |
| RadiologyIcdPolicy.RejectsRuledOut | src/Services/Coding.Worker.Tests/RadiologyIcdPolicyTests.cs:10-23 | a ruled-out indication concept is not eligible for primary |
| RadiologyIcdPolicy.RejectsNegative | src/Services/Coding.Worker.Tests/RadiologyIcdPolicyTests.cs:26-39 | a negative indication concept is not eligible for primary |
| RadiologyIcdPolicy.RejectsFindings | src/Services/Coding.Worker.Tests/RadiologyIcdPolicyTests.cs:42-55 | a confirmed positive findings concept is not eligible for primary |
| RadiologyIcdPolicy.AcceptsImpression | src/Services/Coding.Worker.Tests/RadiologyIcdPolicyTests.cs:58-72 | a confirmed positive indication-related impression concept is eligible for primary |
| RadiologyIcdPolicy.RejectsIncidental | src/Services/Coding.Worker.Tests/RadiologyIcdPolicyTests.cs:75-89 | an incidental impression concept is not eligible for primary |
| SentenceSplitter.TokenStart | src/Services/Extraction.Worker/Services/SentenceSplitter.cs:56-62 | the start of the run of non-whitespace characters that ends just before the period: no whitespace in the run, whitespace just before it |
| SentenceSplitter.BoundaryEnd | src/Services/Extraction.Worker/Services/SentenceSplitter.cs:36-41 | a boundary closes the sentence after itself, and a carriage return followed by a line feed is one boundary |
| SentenceSplitter.SegmentFacts | src/Services/Extraction.Worker/Services/SentenceSplitter.cs:73-103 | nothing is added exactly when the range is empty or blank; otherwise one trimmed sentence inside the range that holds every non-whitespace character of the range |
| SentenceSplitter.SkipStep | src/Services/Extraction.Worker/Services/SentenceSplitter.cs:26-34 | a position that is no boundary (not a terminator, or the period of an abbreviation) extends the current sentence |
| SentenceSplitter.CloseStep | src/Services/Extraction.Worker/Services/SentenceSplitter.cs:36-44 | a boundary closes the current sentence, and the next one begins after it |
| SentenceSplitter.SplitFromWellFormed | src/Services/Extraction.Worker/Services/SentenceSplitter.cs:23-47 | every sentence found is a trimmed piece of the text at its own position with no boundary but its last character |
| SentenceSplitter.SegmentNoInnerBoundary | src/Services/Extraction.Worker/Services/SentenceSplitter.cs:36-43 | the sentence a boundary closes holds no other boundary |
| SentenceSplitter.SplitFromOrdered | src/Services/Extraction.Worker/Services/SentenceSplitter.cs:23-47 | the sentences come in order and do not overlap |
| SentenceSplitter.OrderedConcat | src/Services/Extraction.Worker/Services/SentenceSplitter.cs:43-47 | a sentence followed by ordered later sentences is still ordered |
| SentenceSplitter.SplitFromCovers | src/Services/Extraction.Worker/Services/SentenceSplitter.cs:23-47 | every non-whitespace character falls in some sentence |
| SentenceSplitter.SentencesPartition | src/Services/Extraction.Worker/Services/SentenceSplitter.cs:18-49 | the sentences partition the text's non-whitespace characters: each is a trimmed piece of the text at its own position, they are in order and do not overlap, every non-whitespace character falls in exactly one, and no boundary lies inside one |
| SentenceSplitter.SplitFromJoins | src/Services/Extraction.Worker/Services/SentenceSplitter.cs:23-47 | two non-whitespace characters with no boundary from the first up to the second are found in one sentence |
| SentenceSplitter.NoBoundaryStraddles | src/Services/Extraction.Worker/Services/SentenceSplitter.cs:36-44 | a stretch without boundaries lies wholly before or wholly after the end of the sentence a boundary closes, because the line feed of a "\r\n" pair is white space |
| SentenceSplitter.SameSentenceIff | src/Services/Extraction.Worker/Services/SentenceSplitter.cs:18-49 | sentences are cut at every boundary and only there: two non-whitespace characters lie in the same sentence if and only if no boundary lies from the first up to the second |
| SentenceSplitter.IsAbbreviation | src/Services/Extraction.Worker/Services/SentenceSplitter.cs:54-71 | the walk back to the previous whitespace finds the token the abbreviation test looks up, ignoring case, among dr., vs., mr., mrs., ms., e.g. and i.e. |
| SentenceSplitter.AddSentence | src/Services/Extraction.Worker/Services/SentenceSplitter.cs:73-103 | the two trimming loops append the trimmed segment when something is left |
| SentenceSplitter.Split | src/Services/Extraction.Worker/Services/SentenceSplitter.cs:18-49 | the sentences the single scan produces are the ones the splitting function describes |
| SectionDetector.CanonicalOf | src/Services/Extraction.Worker/Services/SectionDetector.cs:8-17 | a recognised heading maps to one of Indication, Technique, Findings and Impression |
| SectionDetector.LineEnd | src/Services/Extraction.Worker/Services/SectionDetector.cs:106-117 | the position of the first line feed at or after the start, or the length of the text |
| SectionDetector.SafeSubstring | src/Services/Extraction.Worker/Services/SectionDetector.cs:119-132 | the substring clipped to the text, and empty when it starts outside the text or has no length |
| SectionDetector.FirstIndex | src/Services/Extraction.Worker/Services/SectionDetector.cs:52-58 | the index of the first heading of a section, or none when no heading names it |
| SectionDetector.GetLineEndIndex | src/Services/Extraction.Worker/Services/SectionDetector.cs:106-117 | the scan returns the line end |
| SectionDetector.EnsureMissingSection | src/Services/Extraction.Worker/Services/SectionDetector.cs:90-104 | a present section is kept, and an absent one is added as the empty section (-1, -1, "") |
| SectionDetector.CollectHeadings | src/Services/Extraction.Worker/Services/SectionDetector.cs:28-48 | the recognised headings of the matches, in match order, with where each one's content starts |
| SectionDetector.OpenSections | src/Services/Extraction.Worker/Services/SectionDetector.cs:52-80 | a section for the first heading of each name, ending where the next heading starts |
| SectionDetector.AddMissingSections | src/Services/Extraction.Worker/Services/SectionDetector.cs:82-85 | the detected sections are kept and every other of the four names gets its empty section |
| SectionDetector.Detect | src/Services/Extraction.Worker/Services/SectionDetector.cs:23-88 | the result has exactly the four sections, each the one its first heading, in position order, opens |
| SectionDetector.SectionAtIs | src/Services/Extraction.Worker/Services/SectionDetector.cs:60-79 | the section built for a heading ends at the next heading's start, or at the end of the text, and never before its content starts |
| SectionDetector.HeadingsStep | src/Services/Extraction.Worker/Services/SectionDetector.cs:28-48 | one more match adds its heading, if it has one, at the end |
| SectionDetector.HeadingNames | src/Services/Extraction.Worker/Services/SectionDetector.cs:31-34 | every collected heading names one of the four sections |
| SectionDetector.SortedHeadingNames | src/Services/Extraction.Worker/Services/SectionDetector.cs:50 | sorting keeps every heading among the four sections |
| SectionDetector.KeepStep | src/Services/Extraction.Worker/Services/SectionDetector.cs:55-58 | a heading whose section is already open changes nothing |
| SectionDetector.OpenStep | src/Services/Extraction.Worker/Services/SectionDetector.cs:60-79 | any other heading opens its section |
| SectionDetector.SeenNames | src/Services/Extraction.Worker/Services/SectionDetector.cs:55 | the names open after a heading are those open before it plus its own |
| SectionDetector.FillMissing | src/Services/Extraction.Worker/Services/SectionDetector.cs:82-85 | the four missing-section calls keep the detected sections and add the missing ones |
| SectionDetector.OpenedNames | src/Services/Extraction.Worker/Services/SectionDetector.cs:52-80 | only the four section names are opened |
| SectionDetector.SectionsAreSectionFor | src/Services/Extraction.Worker/Services/SectionDetector.cs:52-85 | after the missing sections are added, every section is the one its first heading opens |
| SectionDetector.SectionForShape | src/Services/Extraction.Worker/Services/SectionDetector.cs:52-104 | a section is missing, at (-1, -1, ""), exactly when no heading names it; otherwise it starts where its first heading's content starts and ends at the next heading or the end of the text, never before it starts |
| SectionDetector.SectionForSpan | src/Services/Extraction.Worker/Services/SectionDetector.cs:71-78 | with headings inside the text, a detected section's text is exactly the slice of the report between its start and end |
| SectionDetector.HeadingsFromMatches | src/Services/Extraction.Worker/Services/SectionDetector.cs:28-48 | every recognised heading comes from a match at that match's position |
| SectionDetector.SortedHeadingsWithin | src/Services/Extraction.Worker/Services/SectionDetector.cs:37-47 | matches within the text give headings within the text |
| SectionDetector.DetectedSpans | src/Services/Extraction.Worker/Services/SectionDetector.cs:23-88 | for matches within the text, each of the four sections is missing or holds exactly the text between its start and end |
| SectionDetector.SortedHeadingsOrder | src/Services/Extraction.Worker/Services/SectionDetector.cs:50 | the headings come in position order and each is kept exactly as often as it occurs |
| SectionDetector.BlankRestStartsNextLine | src/Services/Extraction.Worker/Services/SectionDetector.cs:38-45 | a heading with nothing after it on its line starts its content just after the next line feed, or at the end of the text |
| SectionDetector.InlineRestStartsThere | src/Services/Extraction.Worker/Services/SectionDetector.cs:36-37 | a heading with text on its line starts its content there |
| SectionDetector.ReasonForExamIsIndication | src/Services/Extraction.Worker/Services/SectionDetector.cs:11 | REASON FOR EXAM, in any case, opens the indication |
| SectionDetector.ClinicalHistoryIsIndication | src/Services/Extraction.Worker/Services/SectionDetector.cs:12 | CLINICAL HISTORY, in any case, opens the indication |
| SectionDetector.ConclusionIsImpression | src/Services/Extraction.Worker/Services/SectionDetector.cs:16 | CONCLUSION, in any case, opens the impression |
| SectionDetector.OtherHeadingIgnored | src/Services/Extraction.Worker/Services/SectionDetector.cs:8-17 | a seven-letter word such as HISTORY is no heading |
| ScopeText.IndexOf | src/Services/Extraction.Worker/Services/NegationScopeResolver.cs:165 | the first occurrence at or after the start, or -1 when there is none |
| ScopeText.LastOccurrence | src/Services/Extraction.Worker/Services/NegationScopeResolver.cs:185-193 | the last occurrence starting at or before a position, or -1 when there is none |
| ScopeText.FirstWordFrom | src/Services/Extraction.Worker/Services/NegationScopeResolver.cs:163-181 | the first whole-word occurrence in the range, or -1 when there is none |
| ScopeText.LastWordFrom | src/Services/Extraction.Worker/Services/NegationScopeResolver.cs:183-197 | the last whole-word occurrence starting at or before a position, or -1 when there is none |
| ScopeText.IndexOfWord | src/Services/Extraction.Worker/Services/NegationScopeResolver.cs:163-181 | the loop over the occurrences returns the first whole-word occurrence in the range |
| ScopeText.FirstWordIs | src/Services/Extraction.Worker/Services/NegationScopeResolver.cs:163-181 | the first whole-word occurrence is the only one with no whole-word occurrence before it |
| ScopeText.SkippedNotWords | src/Services/Extraction.Worker/Services/NegationScopeResolver.cs:186-194 | the occurrences the backward search steps over are never whole phrases, for a cue that cannot overlap itself as a phrase |
| ScopeText.StepBack | src/Services/Extraction.Worker/Services/NegationScopeResolver.cs:186-194 | one step of the backward search leaves no whole phrase after the next place it looks |
| ScopeText.FindLastCueIndex | src/Services/Extraction.Worker/Services/NegationScopeResolver.cs:183-205 | the result is -1 or a whole-phrase occurrence that ends at or before the match, and for the resolvers' cues it is the last such occurrence; the search stops at the start of the text |
| ScopeText.AsWrittenAgrees | src/Services/Extraction.Worker/Services/NegationScopeResolver.cs:183-197 | wherever the search as written returns, it returns the intended result; it throws only after reaching an occurrence at position 0 that is not a whole phrase |
| ScopeText.LastWordIs | src/Services/Extraction.Worker/Services/NegationScopeResolver.cs:183-197 | the last whole-word occurrence is the only one with none after it |
| ScopeText.SearchAsWrittenFacts | src/Services/Extraction.Worker/Services/NegationScopeResolver.cs:186-194 | the loop as written, from any occurrence on, returns the intended result or throws only at position 0 |
| ScopeText.AsWrittenThrows | src/Services/Extraction.Worker/Services/NegationScopeResolver.cs:193 | the search as written throws on "nodule in lung" with cue "no" and a match at position 10 |
| ScopeText.LastOccurrenceOnlyAtStart | src/Services/Extraction.Worker/Services/NegationScopeResolver.cs:185 | in "nodule in lung" the only occurrence of "no" is at position 0 |
| ScopeText.HasTerminatorBetween | src/Services/Extraction.Worker/Services/NegationScopeResolver.cs:118-138 | whether a period, semicolon or colon, or a whole-word but, however, except, although or yet, lies in the range |
| ScopeText.NoBreakIn | src/Services/Extraction.Worker/Services/NegationScopeResolver.cs:118-138 | no scope break lies in a range whose characters hold no period, semicolon or colon and whose word starts open no terminator |
| ScopeText.BestCue | src/Services/Extraction.Worker/Services/NegationScopeResolver.cs:62-72 | the chosen index is at least that of every cue's last occurrence, and -1 with length 0 when no cue occurs |
| ScopeText.BestCueStep | src/Services/Extraction.Worker/Services/NegationScopeResolver.cs:64-71 | one more cue replaces the choice exactly when it starts later |
| ScopeText.BestCueChosen | src/Services/Extraction.Worker/Services/NegationScopeResolver.cs:62-72 | the chosen cue is one of the cues at its last occurrence, and no cue listed before it starts as late |
| NegationScope.IsNegated | src/Services/Extraction.Worker/Services/NegationScopeResolver.cs:43-90 | the resolver's answer is the negation verdict: false for a blank sentence or a position outside it, then the post-negation cues, then the latest pre-negation cue and its scope |
| NegationScope.FindPostCue | src/Services/Extraction.Worker/Services/NegationScopeResolver.cs:53-60 | whether some post-negation cue first occurs at or after the match and before the first scope break |
| NegationScope.FindPreCue | src/Services/Extraction.Worker/Services/NegationScopeResolver.cs:62-72 | the latest-starting pre-negation cue before the match, the first listed on a tie |
| NegationScope.FindTerminatorAfter | src/Services/Extraction.Worker/Services/NegationScopeResolver.cs:92-116 | the first scope break at or after the start, or the end of the text |
| NegationScope.PositiveCueBlocksScope | src/Services/Extraction.Worker/Services/NegationScopeResolver.cs:140-161 | whether some comma in the range is followed, before its end, by is present, are present, is seen, are seen or was seen |
| NegationScope.PostCueScope | src/Services/Extraction.Worker/Services/NegationScopeResolver.cs:53-60 | the first occurrence of a cue after the match lies before the first scope break exactly when some occurrence does |
| NegationScope.PreCuesChainSafe | src/Services/Extraction.Worker/Services/NegationScopeResolver.cs:5-14 | every pre-negation cue is one the backward search handles exactly |
| NegationScope.ChoiceWithin | src/Services/Extraction.Worker/Services/NegationScopeResolver.cs:62-79 | the chosen pre-negation cue lies inside the text and ends at or before the match |
| NegationScope.NegatedHasCue | src/Services/Extraction.Worker/Services/NegationScopeResolver.cs:43-90 | a negated concept has a post-negation cue in scope, or a whole-phrase pre-negation cue ending at or before it with no scope break in between |
| NegationScope.LatestPreCueDecides | src/Services/Extraction.Worker/Services/NegationScopeResolver.cs:62-72 | the verdict rests on a pre-negation cue that starts no earlier than any other before the match |
| NegationScope.NoCueNotNegated | src/Services/Extraction.Worker/Services/NegationScopeResolver.cs:43-90 | without any cue near the match the concept is not negated |
| NegationScope.PreCueWithoutBreakNegated | src/Services/Extraction.Worker/Services/NegationScopeResolver.cs:62-90 | a whole-phrase pre-negation cue ending at or before the match negates it when neither a scope break nor a comma lies before the match |
| NegationScope.BreakAfterPreCuesNotNegated | src/Services/Extraction.Worker/Services/NegationScopeResolver.cs:53-82 | with no post-negation cue at or after the match, a scope break after the end of every pre-negation cue before the match leaves it un-negated |
| NegationScope.LeadingNoNegates | src/Services/Extraction.Worker/Services/NegationScopeResolver.cs:62-90 | a sentence opening with "No " negates the concept at position 3, whatever follows |
| NegationScope.NoReachesAcrossOr | src/Services/Extraction.Worker.Tests/NegationScopeResolverTests.cs:12-19 | in "No PE or pneumothorax; pneumonia present", PE (position 3) and pneumothorax (position 9) are negated |
| NegationScope.SemicolonEndsScope | src/Services/Extraction.Worker.Tests/NegationScopeResolverTests.cs:12-20 | in the same sentence, pneumonia (position 23), after the semicolon, is not negated |
| NegationScope.NotSeenNegates | src/Services/Extraction.Worker.Tests/NegationScopeResolverTests.cs:27-30 | in "Pneumothorax not seen", pneumothorax (position 0) is negated by the post-negation cue |
| NegationScope.CueAfterMatchDoesNotNegate | src/Services/Extraction.Worker.Tests/NegationScopeResolverTests.cs:37-40 | in "Fracture without displacement", fracture (position 0) is not negated |
| HistoryScope.IsHistorical | src/Services/Extraction.Worker/Services/HistoryScopeResolver.cs:26-58 | the resolver's answer is the history verdict: false for a blank sentence or a position outside it, then the latest history cue and its scope |
| HistoryScope.HistoryCuesChainSafe | src/Services/Extraction.Worker/Services/HistoryScopeResolver.cs:5-15 | every history cue is one the backward search handles exactly |
| HistoryScope.HistoryChoiceWithin | src/Services/Extraction.Worker/Services/HistoryScopeResolver.cs:37-45 | the chosen history cue lies inside the text and ends at or before the match |
| HistoryScope.HistoricalHasCue | src/Services/Extraction.Worker/Services/HistoryScopeResolver.cs:26-58 | a historical concept has a whole-phrase history cue ending at or before it with no scope break in between |
| HistoryScope.NoCueNotHistorical | src/Services/Extraction.Worker/Services/HistoryScopeResolver.cs:26-58 | without a whole-phrase history cue before the match the concept is not historical |
| HistoryScope.LatestHistoryCueDecides | src/Services/Extraction.Worker/Services/HistoryScopeResolver.cs:37-45 | the verdict rests on a history cue that starts no earlier than any other before the match |
| HistoryScope.CueWithoutBreakHistorical | src/Services/Extraction.Worker/Services/HistoryScopeResolver.cs:26-58 | a whole-phrase history cue ending at or before the match makes it historical when no scope break lies before the match |
| HistoryScope.HistoryOfReaches | src/Services/Extraction.Worker.Tests/HistoryScopeResolverTests.cs:9-17 | in "History of CVA.", CVA (position 11) is historical |
| HistoryScope.ChronicReaches | src/Services/Extraction.Worker.Tests/HistoryScopeResolverTests.cs:10-17 | in "Chronic microvascular changes.", changes (position 22) is historical |
| HistoryScope.PriorReaches | src/Services/Extraction.Worker.Tests/HistoryScopeResolverTests.cs:11-17 | in "Prior fracture noted.", fracture (position 6) is historical |
| HistoryScope.AcuteNotHistorical | src/Services/Extraction.Worker.Tests/HistoryScopeResolverTests.cs:21-27 | in "Acute fracture present.", fracture (position 6) is not historical |
| ConceptPacks.AppliedPacks | src/Services/Extraction.Worker/Services/ConceptPackRegistry.cs:22-59 | one to three pack names, GLOBAL first |
| ConceptPacks.PacksFor | src/Services/Extraction.Worker/Services/ConceptPackRegistry.cs:28-59 | one to three pack names for a normalized modality and region, GLOBAL first |
| ConceptPacks.PackIndex | src/Services/Extraction.Worker/Services/ConceptPackRegistry.cs:65 | the position of the first pack registered under the name, ignoring case, or the registry's length |
| ConceptPacks.FindPack | src/Services/Extraction.Worker/Services/ConceptPackRegistry.cs:65-69 | the patterns of the first pack registered under the name, ignoring case, or nothing when none is |
| ConceptPacks.Resolve | src/Services/Extraction.Worker/Services/ConceptPackRegistry.cs:20-88 | the applied packs, and the patterns of the packs registered under those names, deduplicated on type and normalized text ignoring case, the first one kept |
| ConceptPacks.ResolvePatterns | src/Services/Extraction.Worker/Services/ConceptPackRegistry.cs:61-81 | the outer loop gives the deduplicated patterns of the applied packs in order |
| ConceptPacks.PackStep | src/Services/Extraction.Worker/Services/ConceptPackRegistry.cs:63-69 | one more applied name adds the patterns of its pack, or nothing when no pack has that name |
| ConceptPacks.AddStep | src/Services/Extraction.Worker/Services/ConceptPackRegistry.cs:71-78 | one more pattern is added exactly when its key is new |
| ConceptPacks.AddPatterns | src/Services/Extraction.Worker/Services/ConceptPackRegistry.cs:71-78 | the inner loop adds the patterns whose key the dictionary does not hold yet |
| ConceptPacks.AppliedPacksExactly | src/Services/Extraction.Worker/Services/ConceptPackRegistry.cs:22-59 | a pack is applied exactly when its modality, and its region where it has one, match after trimming and upper-casing |
| ConceptPacks.PacksForExactly | src/Services/Extraction.Worker/Services/ConceptPackRegistry.cs:28-59 | the same on normalized names |
| ConceptPacks.PackNamesDistinct | src/Services/Extraction.Worker/Services/ConceptPackRegistry.cs:22-59 | the pack names differ from one another |
| ConceptPacks.GlobalOnlyIff | src/Services/Extraction.Worker/Services/ConceptPackRegistry.cs:28-59 | only GLOBAL applies exactly when the modality is none of CT, MRI and US |
| ConceptPacks.AppliedPacksDistinct | src/Services/Extraction.Worker/Services/ConceptPackRegistry.cs:22-59 | no pack is applied twice |
| ConceptPacks.PacksForDistinct | src/Services/Extraction.Worker/Services/ConceptPackRegistry.cs:28-59 | no pack is applied twice, on normalized names |
| ConceptPacks.AppliedPatternsMembers | src/Services/Extraction.Worker/Services/ConceptPackRegistry.cs:63-79 | the patterns collected are exactly those of the packs registered under the applied names |
| ConceptPacks.EmptyRegistryNoPatterns | src/Services/Extraction.Worker/Services/ConceptPackRegistry.cs:15-18 | an empty registry gives no patterns |
| ConceptPacks.RegisteredPatternsResolved | src/Services/Extraction.Worker/Services/ConceptPackRegistry.cs:61-81 | every pattern of an applied pack has its key among the resolved patterns |
| ConceptPacks.CtChestNormalized | src/Services/Extraction.Worker/Services/ConceptPackRegistry.cs:28-34 | CT and CHEST apply GLOBAL, CT_COMMON and CT_CHEST |
| ConceptPacks.ChestAndAbdomenPacks | src/Services/Extraction.Worker/Services/ConceptPackRegistry.cs:118-128 | the default registry's CT_CHEST and CT_ABDOMEN packs hold their listed patterns |
| ConceptPacks.GlobalAndCtCommonPacks | src/Services/Extraction.Worker/Services/ConceptPackRegistry.cs:90-107 | the default registry's GLOBAL and CT_COMMON packs hold their listed patterns |
| ConceptPacks.CtAppliedPatterns | src/Services/Extraction.Worker/Services/ConceptPackRegistry.cs:61-81 | a CT study of the chest or abdomen visits GLOBAL's patterns, then CT_COMMON's, then the region pack's |
| ConceptPacks.KeptAt | src/Services/Extraction.Worker/Services/ConceptPackRegistry.cs:71-78 | a visited pattern whose key no earlier pattern has is itself kept |
| ConceptPacks.CtChestKept | src/Services/Extraction.Worker/Services/ConceptPackRegistry.cs:61-81 | visiting GLOBAL, CT_COMMON and CT_CHEST keeps every CT_CHEST pattern, type and text |
| ConceptPacks.CtChestResolvesItsConcepts | src/Services/Extraction.Worker.Tests/ConceptPackRegistryTests.cs:9-18 | for CT of the chest the default registry resolves each CT_CHEST pattern itself, so its normalized text is among the resolved texts: pulmonary embolism, pneumothorax, pneumonia |
| ConceptPacks.CtAbdomenNormalized | src/Services/Extraction.Worker/Services/ConceptPackRegistry.cs:28-38 | CT and ABDOMEN apply GLOBAL, CT_COMMON and CT_ABDOMEN |
| ConceptPacks.CtAbdomenKept | src/Services/Extraction.Worker/Services/ConceptPackRegistry.cs:61-81 | visiting GLOBAL, CT_COMMON and CT_ABDOMEN keeps both CT_ABDOMEN patterns, type and text |
| ConceptPacks.CtAbdomenResolvesItsConcepts | src/Services/Extraction.Worker.Tests/ConceptPackRegistryTests.cs:21-29 | for CT of the abdomen the default registry resolves each CT_ABDOMEN pattern itself, so its normalized text is among the resolved texts: appendicitis and bowel obstruction |
| ConceptExtractor.MapSourcePriority | src/Services/Extraction.Worker/Services/ClinicalConceptExtractor.cs:129-135 | INDICATION exactly for the Indication section, IMPRESSION exactly for the Impression section, FINDINGS for every other |
| ConceptExtractor.PrioritiesDistinct | src/Services/Extraction.Worker/Services/ClinicalConceptExtractor.cs:132-134 | the three source priorities differ |
| ConceptExtractor.VerdictNamesDistinct | src/Services/Extraction.Worker/Services/ClinicalConceptExtractor.cs:62-64 | the certainty, polarity and temporality names differ |
| ConceptExtractor.IndicationTextsAppend | src/Services/Extraction.Worker/Services/ClinicalConceptExtractor.cs:85-88 | one more concept adds its text to the indication concepts exactly when it is an un-negated Indication concept |
| ConceptExtractor.WithRelevance | src/Services/Extraction.Worker/Services/ClinicalConceptExtractor.cs:96-124 | the relevance pass keeps the number of concepts |
| ConceptExtractor.Extract | src/Services/Extraction.Worker/Services/ClinicalConceptExtractor.cs:27-127 | the concepts the nested loops collect are those the extraction function describes |
| ConceptExtractor.ScanSection | src/Services/Extraction.Worker/Services/ClinicalConceptExtractor.cs:45-93 | the sentence loop over one section appends that section's concepts and keeps the indication concept set in step |
| ConceptExtractor.ScanSentence | src/Services/Extraction.Worker/Services/ClinicalConceptExtractor.cs:48-92 | the pattern loop over one sentence appends that sentence's concepts |
| ConceptExtractor.ScanPattern | src/Services/Extraction.Worker/Services/ClinicalConceptExtractor.cs:50-91 | the match loop appends a concept for each successful match of the pattern |
| ConceptExtractor.RecordMatch | src/Services/Extraction.Worker/Services/ClinicalConceptExtractor.cs:57-90 | one successful match records one concept and remembers its text when it is an un-negated Indication concept |
| ConceptExtractor.MatchStepAppend | src/Services/Extraction.Worker/Services/ClinicalConceptExtractor.cs:50-55 | one more match adds its concept when it succeeds |
| ConceptExtractor.ConceptAdded | src/Services/Extraction.Worker/Services/ClinicalConceptExtractor.cs:85-90 | recording a match extends the indication concepts exactly when it is an un-negated Indication match |
| ConceptExtractor.AssignRelevance | src/Services/Extraction.Worker/Services/ClinicalConceptExtractor.cs:96-124 | each concept gets the relevance its source and the indication concepts give it, everything else unchanged |
| ConceptExtractor.PatternConceptsMembers | src/Services/Extraction.Worker/Services/ClinicalConceptExtractor.cs:50-91 | a pattern contributes exactly the concepts of its successful matches |
| ConceptExtractor.SentenceConceptsMembers | src/Services/Extraction.Worker/Services/ClinicalConceptExtractor.cs:48-92 | a sentence contributes exactly the concepts of its patterns |
| ConceptExtractor.SectionConceptsMembers | src/Services/Extraction.Worker/Services/ClinicalConceptExtractor.cs:39-93 | a section contributes exactly the concepts of its sentences, and none when it is missing or blank |
| ConceptExtractor.ScannedMembers | src/Services/Extraction.Worker/Services/ClinicalConceptExtractor.cs:37-94 | the scan collects exactly the concepts of the successful matches in the Indication, Findings and Impression sections |
| ConceptExtractor.FromScanConcept | src/Services/Extraction.Worker/Services/ClinicalConceptExtractor.cs:71-83 | every scanned concept has relevance UNCLEAR and its section's source priority |
| ConceptExtractor.ExtractionIsScan | src/Services/Extraction.Worker/Services/ClinicalConceptExtractor.cs:27-127 | relevance aside, the result is exactly the concepts of the successful matches in the scanned sections |
| ConceptExtractor.ScannedUnclear | src/Services/Extraction.Worker/Services/ClinicalConceptExtractor.cs:78 | the scan leaves every relevance UNCLEAR |
| ConceptExtractor.ScannedBySection | src/Services/Extraction.Worker/Services/ClinicalConceptExtractor.cs:37 | the scan is the Indication concepts, then the Findings concepts, then the Impression concepts |
| ConceptExtractor.SectionPriority | src/Services/Extraction.Worker/Services/ClinicalConceptExtractor.cs:77 | a section's concepts carry its source priority |
| ConceptExtractor.RankAt | src/Services/Extraction.Worker/Services/ClinicalConceptExtractor.cs:37-94 | each scanned concept's rank is that of its section block |
| ConceptExtractor.ExtractionInSectionOrder | src/Services/Extraction.Worker/Services/ClinicalConceptExtractor.cs:37-94 | the result lists Indication concepts first, then Findings, then Impression |
| ConceptExtractor.ConceptVerdicts | src/Services/Extraction.Worker/Services/ClinicalConceptExtractor.cs:57-83 | a concept is RULED_OUT and NEGATIVE exactly when negated, SUSPECTED when not negated but uncertain, otherwise CONFIRMED; HISTORY exactly when historical; it names the pattern's normalized text and carries one span |
| ConceptExtractor.EvidenceSpanParses | src/Services/Extraction.Worker/Services/ClinicalConceptExtractor.cs:66-82 | a concept's evidence span parses back, with the claim builder's span parser, to its section and its start and end |
| ConceptExtractor.ScannedNamesWithoutColon | src/Services/Extraction.Worker/Services/ClinicalConceptExtractor.cs:37 | the scanned section names contain no colon |
| ConceptExtractor.IndicationTextsEmpty | src/Services/Extraction.Worker/Services/ClinicalConceptExtractor.cs:104 | the indication concept set is empty exactly when no un-negated Indication concept was found |
| ConceptExtractor.RelevanceNamesDistinct | src/Services/Extraction.Worker/Services/ClinicalConceptExtractor.cs:100-122 | the three relevance names differ |
| ConceptExtractor.ScannedPriority | src/Services/Extraction.Worker/Services/ClinicalConceptExtractor.cs:106-107 | a scanned priority is one of the three and equals FINDINGS ignoring case only when it is FINDINGS |
| ConceptExtractor.ExtractionRelevance | src/Services/Extraction.Worker/Services/ClinicalConceptExtractor.cs:96-124 | INDICATION_RELATED for an Indication concept; with no un-negated Indication concept, INCIDENTAL for a Findings concept of a report with indication text, else UNCLEAR; otherwise INDICATION_RELATED exactly when an un-negated Indication concept has the same text up to case, and INCIDENTAL when none has |
| ConceptExtractor.LeadingNoRuledOut | src/Services/Extraction.Worker.Tests/ExtractionPipelineTests.cs:17-21 | a match at position 3 of a sentence opening with "No " is RULED_OUT and NEGATIVE, as for "No pneumothorax." and "No bowel obstruction." |
| ConceptExtractor.OnlyScannedSectionsMatter | src/Services/Extraction.Worker/Services/ClinicalConceptExtractor.cs:37-43 | sections other than Indication, Findings and Impression do not affect the result |
| ConceptExtractor.NothingToScan | src/Services/Extraction.Worker/Services/ClinicalConceptExtractor.cs:39-43 | without a present, non-blank scanned section there are no concepts |
| DocumentationCompleteness.Evaluate | src/Services/Extraction.Worker/Services/DocumentationCompletenessScorer.cs:12-37 | the score and warnings are those of the scoring functions |
| DocumentationCompleteness.AddSectionScore | src/Services/Extraction.Worker/Services/DocumentationCompletenessScorer.cs:39-54 | the weight when the section is present and not blank; otherwise 0 and the warning appended |
| DocumentationCompleteness.WarningNamesDistinct | src/Services/Extraction.Worker/Services/DocumentationCompletenessScorer.cs:19-29 | the four warning names differ |
| DocumentationCompleteness.WarningsExactly | src/Services/Extraction.Worker/Services/DocumentationCompletenessScorer.cs:16-30 | each of the four warnings is raised exactly when its section is missing or blank, or there is no signature line |
| DocumentationCompleteness.ScoreFromWarnings | src/Services/Extraction.Worker/Services/DocumentationCompletenessScorer.cs:19-34 | the score is 1.00 less the weight of every part a warning reports missing |
| DocumentationCompleteness.PenaltyAppend | src/Services/Extraction.Worker/Services/DocumentationCompletenessScorer.cs:19-29 | the penalty of two warning lists put together is the sum of their penalties |
| DocumentationCompleteness.ScoreBounds | src/Services/Extraction.Worker/Services/DocumentationCompletenessScorer.cs:17-34 | the score lies between 0.00 and 1.00 |
| DocumentationCompleteness.FullScoreIffNoWarnings | src/Services/Extraction.Worker/Services/DocumentationCompletenessScorer.cs:16-36 | the score is 1.00 exactly when no warning is raised |
| DocumentationCompleteness.OnlyScoredSectionsMatter | src/Services/Extraction.Worker/Services/DocumentationCompletenessScorer.cs:19-21 | only the Indication, Technique and Impression sections count |
| DocumentationCompleteness.MissingIndicationPenalized | src/Services/Extraction.Worker.Tests/DocumentationCompletenessTests.cs:9-20 | a report without Indication content is warned about it and scores below 1.00 |
| RadiologyExtraction.Extract | src/Services/Extraction.Worker/Services/RadiologyExtractionService.cs:27-81 | the extracted encounter is the one the extraction function describes from the detected sections, the pack resolution, the concepts and the completeness result |
| RadiologyExtraction.CollectWarnings | src/Services/Extraction.Worker/Services/RadiologyExtractionService.cs:35-57 | the completeness warnings, then each service warning whose condition holds |
| RadiologyExtraction.ServiceWarningNamesDistinct | src/Services/Extraction.Worker/Services/RadiologyExtractionService.cs:40-56 | the four service warning names differ |
| RadiologyExtraction.ServiceWarningsExactly | src/Services/Extraction.Worker/Services/RadiologyExtractionService.cs:38-57 | MODALITY_UNKNOWN, BODY_REGION_UNKNOWN, CONCEPT_PACK_FALLBACK_GLOBAL_ONLY and CONCEPT_PACK_NO_MATCH are each raised exactly when their condition holds |
| RadiologyExtraction.FallbackIffGlobalOnly | src/Services/Extraction.Worker/Services/RadiologyExtractionService.cs:48-52 | the fallback warning is raised exactly when the applied packs are just GLOBAL, which is when the modality is none of CT, MRI and US |
| RadiologyExtraction.DefaultRegistryAlwaysMatches | src/Services/Extraction.Worker/Services/RadiologyExtractionService.cs:54-57 | with the default registry some pattern always resolves |
| RadiologyExtraction.EmptyRegistryNoMatch | src/Services/Extraction.Worker.Tests/ExtractionPipelineTests.cs:104-113 | with an empty registry CONCEPT_PACK_NO_MATCH is raised |
| RadiologyExtraction.ExtractedSections | src/Services/Extraction.Worker/Services/RadiologyExtractionService.cs:59-63 | the encounter's sections are the four detected sections with their content trimmed, and its indication text is the trimmed Indication content |
| RadiologyExtraction.FallbackWarningIff | src/Services/Extraction.Worker/Services/RadiologyExtractionService.cs:35-57 | some warning equals the fallback warning ignoring case exactly when only GLOBAL applied |
| RadiologyExtraction.GateSeesFallback | src/Services/Extraction.Worker/Services/RadiologyExtractionService.cs:48-52 | the safety gate raises PACK_FALLBACK_GLOBAL_ONLY for an extracted encounter exactly when only GLOBAL applied |
| RadiologyExtraction.GateSeesMissingIndication | src/Services/Extraction.Worker/Services/RadiologyExtractionService.cs:59-70 | the gate raises MISSING_INDICATION_OR_IMPRESSION for an extracted encounter exactly when the scorer warned MISSING_INDICATION_SECTION |
| LoaderOptions.SplitTrimmed | src/Tools/Terminology.Loader/LoaderOptions.cs:47 | one part exactly when the argument has no '=', and then it is the trimmed argument; two parts otherwise |
| LoaderOptions.KeyPartIsOption | src/Tools/Terminology.Loader/LoaderOptions.cs:42-48 | the key part of an option still starts with two dashes, so taking the key off after them is defined |
| LoaderOptions.TryParse | src/Tools/Terminology.Loader/LoaderOptions.cs:27-98 | the verdict, the options and the error are those of the parse outcome function |
| LoaderOptions.ScanArguments | src/Tools/Terminology.Loader/LoaderOptions.cs:38-51 | the loop builds the dictionary the argument scan describes |
| LoaderOptions.ArgMapShift | src/Tools/Terminology.Loader/LoaderOptions.cs:39-51 | scanning arguments that follow others from their first one is scanning them alone |
| LoaderOptions.PlainKeyOf | src/Tools/Terminology.Loader/LoaderOptions.cs:42-48 | an option built from a key without '=' or surrounding space is left as it is by the split |
| LoaderOptions.ScanSkip | src/Tools/Terminology.Loader/LoaderOptions.cs:42-45 | an argument not starting with "--" leaves the dictionary as it is |
| LoaderOptions.ScanInline | src/Tools/Terminology.Loader/LoaderOptions.cs:47-50 | "--key=value" sets the key, case folded, to the trimmed value and the scan goes on with the next argument |
| LoaderOptions.ScanSeparate | src/Tools/Terminology.Loader/LoaderOptions.cs:49-50 | "--key" followed by an argument sets the key to that argument, which is consumed |
| LoaderOptions.ScanLastFlag | src/Tools/Terminology.Loader/LoaderOptions.cs:49-50 | "--key" as the last argument sets the key to the empty text |
| LoaderOptions.LaterKeyWins | src/Tools/Terminology.Loader/LoaderOptions.cs:38-50 | keys compare ignoring case and the later value for a key wins |
| LoaderOptions.LowerIdempotent | src/Tools/Terminology.Loader/LoaderOptions.cs:38 | folding case twice is folding it once |
| LoaderOptions.ValueSwallowsOption | src/Tools/Terminology.Loader/LoaderOptions.cs:49 | "--key" followed by an option takes that option as its value, so "--embed --inputZip=x" fails for a missing inputZip |
| LoaderOptions.OutcomeVerdict | src/Tools/Terminology.Loader/LoaderOptions.cs:27-97 | the parse succeeds exactly when there are arguments, inputZip is given and not blank, and a given effectiveFrom parses; a failure keeps the defaults and names the first failing check, a success has no error |
| LoaderOptions.ResolvedFields | src/Tools/Terminology.Loader/LoaderOptions.cs:59-95 | after a success every text option is non-blank: a given non-blank value is kept, a missing or blank one falls back to its default; effectiveFrom is the parsed date or 2025-10-01 |
| LoaderOptions.FlagDefaults | src/Tools/Terminology.Loader/LoaderOptions.cs:79-84 | a flag that is absent or does not parse keeps its default, embed off and aliases on; one that parses takes the parsed value |
| XmlEvents.FindEntry | src/Tools/Terminology.Loader/Pipeline/Icd10CmTabularParser.cs:11-13 | None exactly when no entry is an XML file whose name mentions the marker; otherwise the first such entry |
| TabularParser.SetTop | src/Tools/Terminology.Loader/Pipeline/Icd10CmTabularParser.cs:59-71 | the innermost open diag is replaced and the others are kept |
| TabularParser.MarkChild | src/Tools/Terminology.Loader/Pipeline/Icd10CmTabularParser.cs:38-41 | a new diag marks its parent, if any, as having a child and changes nothing else |
| TabularParser.ParseConcepts | src/Tools/Terminology.Loader/Pipeline/Icd10CmTabularParser.cs:8-103 | a Failure with the missing-entry message when no tabular XML entry exists, otherwise the rows of that entry's stream |
| TabularParser.ParseEvents | src/Tools/Terminology.Loader/Pipeline/Icd10CmTabularParser.cs:28-102 | the reading loop yields the rows the step function describes over the stream |
| TabularParser.HandleEvent | src/Tools/Terminology.Loader/Pipeline/Icd10CmTabularParser.cs:33-101 | one node of the stream changes the stack, the current element and the rows as the step function does |
| TabularParser.RowOfWellFormed | src/Tools/Terminology.Loader/Pipeline/Icd10CmTabularParser.cs:84-97 | a closed diag with a code yields a well-formed row |
| TabularParser.DescriptionsBlankTogether | src/Tools/Terminology.Loader/Pipeline/Icd10CmTabularParser.cs:84-89 | after the fallbacks the two descriptions are blank together or not at all |
| TabularParser.ParsedRowsWellFormed | src/Tools/Terminology.Loader/Pipeline/Icd10CmTabularParser.cs:31-102 | every row of every stream has a non-blank trimmed code, trimmed descriptions blank together or not at all, and is billable exactly when it is not a header |
| TabularParser.StepKeepsRowsWellFormed | src/Tools/Terminology.Loader/Pipeline/Icd10CmTabularParser.cs:73-101 | one node keeps every row well formed |
| TabularParser.RowsOnlyAtCodedDiagEnd | src/Tools/Terminology.Loader/Pipeline/Icd10CmTabularParser.cs:73-98 | rows are only appended, one at the end tag of a diag whose code is not blank |
| TabularParser.StepKeepsFilledFields | src/Tools/Terminology.Loader/Pipeline/Icd10CmTabularParser.cs:59-71 | a field of an open diag, once filled, keeps its value |
| TabularParser.TextGoesToInnermost | src/Tools/Terminology.Loader/Pipeline/Icd10CmTabularParser.cs:59 | text is stored only in the innermost open diag |
| TabularParser.IgnoredText | src/Tools/Terminology.Loader/Pipeline/Icd10CmTabularParser.cs:48-57 | text outside every diag, or blank once trimmed, changes nothing |
| TabularParser.TextAfterEndTagDropped | src/Tools/Terminology.Loader/Pipeline/Icd10CmTabularParser.cs:100 | text right after an end tag is dropped, whatever element it lies in |
| TabularParser.EndTagClearsElement | src/Tools/Terminology.Loader/Pipeline/Icd10CmTabularParser.cs:80-100 | every end tag clears the current element |
| TabularParser.TextWithoutElement | src/Tools/Terminology.Loader/Pipeline/Icd10CmTabularParser.cs:60-71 | text with no current element changes nothing |
| TabularParser.TabularDocument | src/Tools/Terminology.Loader/Pipeline/Icd10CmTabularParser.cs:31-102 | on a document of diags, each with name, desc and longdesc elements and its nested diags, under one root element, the rows are the reference: a row per named diag after those of its nested diags, a header exactly when it has nested diags, with the description fallbacks |
| TabularParser.DiagRun | src/Tools/Terminology.Loader/Pipeline/Icd10CmTabularParser.cs:31-102 | a diag's events leave the stack as they found it, with its parent marked, and append the diag's reference rows |
| TabularParser.ChildrenRun | src/Tools/Terminology.Loader/Pipeline/Icd10CmTabularParser.cs:36-44 | the nested diags of an open diag mark it when there are any and append their reference rows |
| TabularParser.CloseDiag | src/Tools/Terminology.Loader/Pipeline/Icd10CmTabularParser.cs:75-98 | the end tag pops the diag and emits its reference row when its name is not blank |
| TabularParser.StepEndDiag | src/Tools/Terminology.Loader/Pipeline/Icd10CmTabularParser.cs:75-98 | the end tag of a diag pops it and appends its row exactly when its code is not blank |
| TabularParser.ClosedRows | src/Tools/Terminology.Loader/Pipeline/Icd10CmTabularParser.cs:78-97 | the row a closed diag emits is its reference row, or none when it has no name |
| TabularParser.DiagListRun | src/Tools/Terminology.Loader/Pipeline/Icd10CmTabularParser.cs:31-102 | a list of diags marks the parent when it is not empty and appends the list's reference rows |
| TabularParser.DiagListStep | src/Tools/Terminology.Loader/Pipeline/Icd10CmTabularParser.cs:31-102 | the first diag of a list runs on its own |
| TabularParser.DiagListJoin | src/Tools/Terminology.Loader/Pipeline/Icd10CmTabularParser.cs:31-102 | the rows of the first diag and of the rest make those of the list |
| TabularParser.OpenDiag | src/Tools/Terminology.Loader/Pipeline/Icd10CmTabularParser.cs:33-71 | a start tag and the three field elements push a diag holding the trimmed texts |
| TabularParser.OpenThenInner | src/Tools/Terminology.Loader/Pipeline/Icd10CmTabularParser.cs:33-71 | what follows the opening of a diag runs on the pushed diag |
| TabularParser.FieldRun | src/Tools/Terminology.Loader/Pipeline/Icd10CmTabularParser.cs:53-71 | one field element fills its still-blank field with the trimmed text |
| TabularParser.ClosedRow | src/Tools/Terminology.Loader/Pipeline/Icd10CmTabularParser.cs:84-97 | the row of a closed diag is its reference row |
| IndexParser.SetTop | src/Tools/Terminology.Loader/Pipeline/Icd10CmIndexParser.cs:54-62 | the innermost open term is replaced and the others are kept |
| IndexParser.ParseAliases | src/Tools/Terminology.Loader/Pipeline/Icd10CmIndexParser.cs:8-90 | no rows when no index XML entry exists, otherwise the rows of that entry's stream |
| IndexParser.ParseEvents | src/Tools/Terminology.Loader/Pipeline/Icd10CmIndexParser.cs:28-89 | the reading loop yields the rows the step function describes over the stream |
| IndexParser.HandleEvent | src/Tools/Terminology.Loader/Pipeline/Icd10CmIndexParser.cs:33-88 | one node of the stream changes the stack, the current element and the rows as the step function does |
| IndexParser.AliasTitlesSnoc | src/Tools/Terminology.Loader/Pipeline/Icd10CmIndexParser.cs:94-97 | an inner term adds its trimmed title, when it is not blank, after the outer terms' titles |
| IndexParser.AliasTextPush | src/Tools/Terminology.Loader/Pipeline/Icd10CmIndexParser.cs:92-100 | the alias text with one more term is the outer alias text, then a single space and the new trimmed title when it is not blank |
| IndexParser.AliasTitleMembers | src/Tools/Terminology.Loader/Pipeline/Icd10CmIndexParser.cs:94-97 | a title is in the alias exactly when it is not blank and is some open term's trimmed title |
| IndexParser.AliasTextShape | src/Tools/Terminology.Loader/Pipeline/Icd10CmIndexParser.cs:92-100 | the alias text is trimmed, and blank exactly when every open term's title is |
| IndexParser.AliasIgnoresPendingCode | src/Tools/Terminology.Loader/Pipeline/Icd10CmIndexParser.cs:68-72 | clearing the pending code before building the alias text leaves the text as it was |
| IndexParser.RowsOnlyAtCodeEnd | src/Tools/Terminology.Loader/Pipeline/Icd10CmIndexParser.cs:64-77 | a row is appended only at the end of a code element inside a term: the trimmed pending code with the alias text of the open terms, when neither is blank |
| IndexParser.CodeEndClearsPending | src/Tools/Terminology.Loader/Pipeline/Icd10CmIndexParser.cs:66-70 | the end of a code element clears the innermost term's pending code and keeps the open terms |
| IndexParser.EndWithoutTermIgnored | src/Tools/Terminology.Loader/Pipeline/Icd10CmIndexParser.cs:64-87 | an end tag with no open term changes only the current element |
| IndexParser.TermEndPops | src/Tools/Terminology.Loader/Pipeline/Icd10CmIndexParser.cs:79-87 | the end tag of a mainTerm or term closes the innermost open term |
| IndexParser.IgnoredText | src/Tools/Terminology.Loader/Pipeline/Icd10CmIndexParser.cs:43-52 | text outside every term, or blank once trimmed, is ignored |
| IndexParser.StepKeepsTitles | src/Tools/Terminology.Loader/Pipeline/Icd10CmIndexParser.cs:55-58 | a term keeps the first non-blank title it is given |
| IndexParser.CodeTextReplaces | src/Tools/Terminology.Loader/Pipeline/Icd10CmIndexParser.cs:59-62 | text inside a code element replaces the pending code, so the last such text is emitted |
| IndexParser.StepKeepsRowsWellFormed | src/Tools/Terminology.Loader/Pipeline/Icd10CmIndexParser.cs:64-77 | one node keeps every row well formed |
| IndexParser.ParsedRowsWellFormed | src/Tools/Terminology.Loader/Pipeline/Icd10CmIndexParser.cs:31-89 | every row of every stream has a trimmed, non-blank code and a trimmed, non-blank alias text |
| IndexParser.RunKeepsRowsWellFormed | src/Tools/Terminology.Loader/Pipeline/Icd10CmIndexParser.cs:31-89 | a run from well-formed rows keeps them well formed |
| IndexParser.RunExtendsRows | src/Tools/Terminology.Loader/Pipeline/Icd10CmIndexParser.cs:75 | rows are only ever appended |
| IndexParser.IndexDocument | src/Tools/Terminology.Loader/Pipeline/Icd10CmIndexParser.cs:31-100 | on a document of letters, each with a heading and main terms that hold a title, code elements and nested terms, under one root element, every code that is not blank, under at least one title, yields one row in document order whose alias is the titles on the way down to it joined by single spaces |
| IndexParser.LetterListRun | src/Tools/Terminology.Loader/Pipeline/Icd10CmIndexParser.cs:31-89 | a list of letters appends the reference rows of its main terms |
| IndexParser.LetterListStep | src/Tools/Terminology.Loader/Pipeline/Icd10CmIndexParser.cs:31-89 | the first letter of a list runs on its own |
| IndexParser.LetterRun | src/Tools/Terminology.Loader/Pipeline/Icd10CmIndexParser.cs:41-52 | a letter's heading lies outside every term and is ignored |
| IndexParser.HeadingRun | src/Tools/Terminology.Loader/Pipeline/Icd10CmIndexParser.cs:43-46 | a title outside every term changes nothing |
| IndexParser.TermRun | src/Tools/Terminology.Loader/Pipeline/Icd10CmIndexParser.cs:31-89 | a term's events leave the stack as they found it and append the term's reference rows under the path of the open terms' titles |
| IndexParser.SubtermsRun | src/Tools/Terminology.Loader/Pipeline/Icd10CmIndexParser.cs:33-89 | the nested terms of an open term append their rows under the path of its titles |
| IndexParser.OpenThenCodes | src/Tools/Terminology.Loader/Pipeline/Icd10CmIndexParser.cs:33-77 | a term's start tag, title and codes push its node and append its codes' rows |
| IndexParser.CloseTerm | src/Tools/Terminology.Loader/Pipeline/Icd10CmIndexParser.cs:79-87 | the end tag of a term pops it without emitting a row |
| IndexParser.PathOfPush | src/Tools/Terminology.Loader/Pipeline/Icd10CmIndexParser.cs:94-97 | a pushed term's title extends the path when it is not blank |
| IndexParser.OpenTerm | src/Tools/Terminology.Loader/Pipeline/Icd10CmIndexParser.cs:33-58 | a start tag and a title push a term holding the trimmed title |
| IndexParser.TitleRun | src/Tools/Terminology.Loader/Pipeline/Icd10CmIndexParser.cs:55-58 | a title element fills the new term's title with the trimmed text |
| IndexParser.CodesRun | src/Tools/Terminology.Loader/Pipeline/Icd10CmIndexParser.cs:59-77 | the code elements of an open term append their reference rows and leave the open terms as they were |
| IndexParser.CodeRun | src/Tools/Terminology.Loader/Pipeline/Icd10CmIndexParser.cs:59-77 | one code element emits the reference row of its text |
| IndexParser.CodeText | src/Tools/Terminology.Loader/Pipeline/Icd10CmIndexParser.cs:59-62 | the text of a code element becomes the trimmed pending code unless it is blank |
| IndexParser.CloseCodeStep | src/Tools/Terminology.Loader/Pipeline/Icd10CmIndexParser.cs:66-77 | the end of a code element takes the pending code back out and emits its row |
| IndexParser.CodeRowOf | src/Tools/Terminology.Loader/Pipeline/Icd10CmIndexParser.cs:72-76 | the row emitted for a code text is its reference row |
| IndexParser.TermListRun | src/Tools/Terminology.Loader/Pipeline/Icd10CmIndexParser.cs:31-89 | a list of terms appends its reference rows under the open terms' path |
| IndexParser.TermListStep | src/Tools/Terminology.Loader/Pipeline/Icd10CmIndexParser.cs:31-89 | the first term of a list runs on its own |

## Left out

**Inputs in place of regular expressions and foreign code.** These parts are not modelled;
the model takes their results as inputs or functions instead:

- the heading regex of `SectionDetector`, whose matches arrive in position order;
- the concept patterns' regexes (`ConceptPattern`'s regex field is dropped);
- the signature regex of `DocumentationCompletenessScorer`;
- the CPT service's report-keyword tests (guidance, drainage, biopsy);
- `ModalityBodyRegionExtractor`, the uncertainty resolver (UncertaintyScopeResolver.cs is
  not part of this model) and `TargetAwareNegationResolver`;
- the utilization history service and `bool.TryParse`/`DateOnly.TryParse`, which are
  function parameters.

**Approximations and omissions:**

- Case-insensitive comparison folds ASCII letters only. OrdinalIgnoreCase and
  ToLowerInvariant on non-ASCII letters are not modelled.
- The word test of the scope resolvers, `Text.IsLetterOrDigit`, accepts ASCII letters and
  digits only, where the source's `char.IsLetterOrDigit` is Unicode-aware. A letter such as
  `é` therefore ends a word in the model. The members below are weaker than the source on
  non-ASCII text for that reason alone.
- ScopeText.FirstWordFrom: a non-ASCII letter or digit ends the word it finds.
- ScopeText.LastWordFrom: a non-ASCII letter or digit ends the word it finds.
- ScopeText.HasTerminatorBetween: its whole-word terminators are judged with the ASCII-only
  word test.
- NegationScope.FindPostCue: cue boundaries are judged with the ASCII-only word test.
- NegationScope.FindPreCue: cue boundaries are judged with the ASCII-only word test.
- NegationScope.FindTerminatorAfter: terminator boundaries are judged with the ASCII-only
  word test.
- ScopeText.IndexOfWord, ScopeText.FindLastCueIndex, NegationScope.IsNegated and
  HistoryScope.IsHistorical: a non-ASCII letter or digit next to a cue counts as a word
  boundary in the model, so a cue inside a word such as "noé" is matched. The source's
  Unicode `char.IsLetterOrDigit` (NegationScopeResolver.cs:172,204;
  HistoryScopeResolver.cs:91,123) would reject that match.
- RulesEngine.Summary: no note says that the DEFAULT packs are in use when they are.
  RulesEngine.cs never adds one, and the model follows the code.
- RulesEngine.BuildOutcome: no MISSING_REQUIRED_EVIDENCE pointer is emitted when required
  evidence is absent, although AuthRuleValidator.cs:17 looks for one. RulesEngine.cs builds
  evidence pointers only from the claim's own evidence, and the model follows the code.
- `string?` null is modelled as the empty string. The non-nullable header strings carry no
  null in the model: `ClaimHeader.PayerId` is a non-nullable string that defaults to
  "DEFAULT" (ClaimContext.cs:15), so the null-to-DEFAULT step `PayerId ?? "DEFAULT"` at
  RulesEngine.cs:67 is not modelled and the payer is read as given. The other null
  coalescings of header strings (RulesEngine.cs:68-69,129,157) map null to the empty string,
  as the model does. Every `string?` in the core (the encounter's modality, region,
  laterality, contrast and views, Resolve's arguments, the readers' pending code, title and
  descriptions) is tested as null-or-blank or compared with a non-empty literal, where null
  and empty behave alike.
- ConceptExtractor.Extract: does not model the 32-bit overflow of `sectionStart + index`
  (ClinicalConceptExtractor.cs:66-69). It also never reads `reportText`, as the source never
  does.
- RadiologyExtraction.Extract: `ImpressionConcepts` is left empty, as the source leaves it.
- The relevance pass and the readers' node stacks update values (`seq` updates), not shared
  objects. Nothing in the source aliases them.
- ScopeText.FindLastCueIndex: "latest-starting cue" is proved for cues that cannot overlap
  themselves at a shorter shift. Every negation and history cue is proved to be such a cue.
- The SentenceSplitter sample test ("Dr. Smith reviewed. No PE; pneumonia present: follow
  up\nNext line." gives five sentences, SentenceSplitterTests.cs:8-21) is not restated as
  a lemma, because evaluating the splitter on a long literal is too costly for the
  verifier. For every text, SentenceSplitter.SentencesPartition and
  SentenceSplitter.SameSentenceIff together determine the sentences. Two non-whitespace
  characters share a sentence exactly when no boundary lies between them, and each
  sentence is the trimmed span of its characters. The sample's five sentences are those
  its four boundaries give, but that instance is not proved.
- SectionDetector.Detect: the eight sample reports of SectionDetectorTests.cs:11-79 are
  inline texts, but they are not restated as lemmas. The heading regular expression is not
  modelled: Detect takes the heading matches as input, so each sample's matches would be
  written by hand, not derived from the text. For every report and every list of matches
  inside it, SectionDetector.DetectedSpans and SectionDetector.SectionForShape determine
  the four sections.
- The golden-claim tests (RulesEngineGoldenClaimsTests.cs) read claim and expected-outcome
  JSON files and the appsettings.json rule catalog, which are not part of this model.
- ConceptExtractor.Extract: the report-level expectations of ExtractionPipelineTests.cs:9-89
  are not derived end to end. Which patterns match where comes from the regular-expression
  matcher, and the CONFIRMED and SUSPECTED verdicts ("Pneumonia present.", "Possible
  appendicitis.") also rest on the target-aware negation and uncertainty resolvers. All
  three are parameters of the model. What the model does prove is
  ConceptExtractor.LeadingNoRuledOut: the RULED_OUT verdict of a match right after a
  sentence-opening "No ", whatever those parameters say. That the splitter yields those
  sentences is not proved for these reports.
- `RadiologyCodingService`, `RadiologyAttributesExtractor`, `BundlingValidator`, the
  terminology search, the embedding providers and all database, HTTP, file and hosting code
  are not modelled. They are I/O, floating-point scoring or placeholders.
- The `ILogger` calls and dependency-injection plumbing are left out.
- CPT selections do not model confidence scores or rationales. ICD candidates do not model
  search scores.

**Terminology loader:**

- `ResolveCodeVersionGuid` and `CreateDeterministicGuid` (LoaderOptions.cs:17-25, 100-106)
  are left out. They hash with SHA-256.
- Zip and XmlReader I/O become a list of entries, each with its node stream.
  - An empty element `<x/>`, for which the reader reports no EndElement, is not modelled.
  - The readers' lazy `yield return` is modelled as the complete list of rows.
- TabularParser.ParseConcepts: the `InvalidOperationException` for a missing tabular entry
  becomes a `Failure` result with its message.
- TabularParser.TabularDocument: the reference theorem covers documents whose diags each
  hold a name, desc and longdesc element in that order. Properties for every stream hold
  for any input.
- IndexParser.IndexDocument: the reference theorem covers documents of letters, main terms
  and terms with a title first. Properties for every stream hold for any input.
- `AliasRow`'s other fields are not modelled: AliasRow.cs is not part of this model. The
  reader sets only the code and the alias text.

## Findings

| source | as written | input that shows it | evidently intended | confidence | as-written member | corrected member |
|---|---|---|---|---|---|---|
| src/Services/Extraction.Worker/Services/NegationScopeResolver.cs:183-197 (the same code at HistoryScopeResolver.cs:102-116) | after an occurrence at index 0 that is not a whole phrase, the search continues with `LastIndexOf(cue, index - 1)`, that is `LastIndexOf(cue, -1)`, which throws `ArgumentOutOfRangeException` on a non-empty text | sentence "nodule in lung", cue "no", match index 10: "no" occurs only at 0, inside "nodule" | stop the search and report no cue (-1) | not executed | ScopeText.FindLastCueIndexAsWritten, shown by ScopeText.AsWrittenThrows | ScopeText.FindLastCueIndex |
