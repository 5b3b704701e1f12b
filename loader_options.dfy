/** The terminology loader's command line: "--key=value" and "--key value" arguments,
  * collected into a case-insensitive dictionary in which later keys win, then resolved
  * into the loader's options with their defaults. */
module LoaderOptions {
  import opened Text

  /** DateOnly, as a calendar triple. */
  datatype Date = Date(year: int, month: int, day: int)

  /** LoaderOptions: an immutable record of init-only properties. */
  datatype Options = Options(codeSystem: string, codeVersionId: string, effectiveFrom: Date,
                             inputZip: string, modelId: string, embed: bool, aliases: bool)

  /** The property initialisers, which `new LoaderOptions()` yields. */
  const Defaults := Options("ICD10CM", "ICD10CM_2026", Date(2025, 10, 1), "", "fake-embed-1536", false, true)

  const MissingArguments := "Missing required arguments. Use --inputZip <path> at minimum."
  const MissingInputZip := "Missing --inputZip <path-to-icd10cm-table-and-index-YYYY.zip>."
  const InvalidEffectiveFrom := "Invalid --effectiveFrom value. Use YYYY-MM-DD."

  /** DateOnly.TryParse with the invariant culture and bool.TryParse are outside this
    * model; they are given as functions. */
  type DateParser = string -> Option<Date>
  type BoolParser = string -> Option<bool>

  /** The three out-values of TryParse: the verdict, the options and the error (None for
    * null). */
  datatype ParseResult = ParseResult(ok: bool, options: Options, error: Option<string>)

  /** arg.StartsWith("--", StringComparison.Ordinal). */
  predicate IsOption(arg: string) {
    |arg| >= 2 && arg[0] == '-' && arg[1] == '-'
  }

  /** arg.Split('=', 2, StringSplitOptions.TrimEntries): the trimmed text before the first
    * '=' and the trimmed rest, or the trimmed argument alone when it has no '='. */
  function SplitTrimmed(arg: string): (parts: seq<string>)
    ensures |parts| == 1 <==> '=' !in arg
    ensures |parts| == 1 || |parts| == 2
    ensures '=' !in arg ==> parts[0] == Trim(arg)
  {
    match SplitFirst(arg, '=')
    case None => [Trim(arg)]
    case Some((before, after)) => [Trim(before), Trim(after)]
  }

  /** The trimmed text before an option's '=' still starts with its two dashes. */
  lemma KeyPartIsOption(arg: string)
    requires IsOption(arg)
    ensures IsOption(SplitTrimmed(arg)[0])
  {
    var s := if '=' in arg then SplitFirst(arg, '=').value.0 else arg;
    if '=' in arg {
      var p := SplitFirst(arg, '=').value;
      assert arg == p.0 + ['='] + p.1;
      assert p.0[0] == '-' && p.0[1] == '-';
    }
    assert s[0] == '-' && s[1] == '-';
    var r := Trim(s);
    var a :| TrimmedAt(s, r, a);
    assert a == 0;
    assert |r| >= 2;
    assert r[0] == s[0] && r[1] == s[1];
  }

  /** The dictionary key of an option argument: the text after the dashes, folded so that
    * keys differing only in case meet (StringComparer.OrdinalIgnoreCase). */
  function KeyOf(arg: string): string
    requires IsOption(arg)
  {
    KeyPartIsOption(arg);
    Lower(SplitTrimmed(arg)[0][2..])
  }

  /** The dictionary the scan of args[i..] leaves, starting from acc: an argument that is
    * not an option is skipped; "--key=value" sets key to the trimmed value; "--key" takes
    * the next argument as its value, or "" when it is the last one. */
  function ArgMap(args: seq<string>, i: nat, acc: map<string, string>): map<string, string>
    requires i <= |args|
    decreases |args| - i
  {
    if i == |args| then acc
    else if !IsOption(args[i]) then ArgMap(args, i + 1, acc)
    else
      var parts := SplitTrimmed(args[i]);
      if |parts| == 2 then ArgMap(args, i + 1, acc[KeyOf(args[i]) := parts[1]])
      else if i + 1 < |args| then ArgMap(args, i + 2, acc[KeyOf(args[i]) := args[i + 1]])
      else acc[KeyOf(args[i]) := ""]
  }

  function Arguments(args: seq<string>): map<string, string> {
    ArgMap(args, 0, map[])
  }

  /** map.TryGetValue(name, out value) on the case-insensitive dictionary. */
  function Lookup(m: map<string, string>, name: string): Option<string> {
    if Lower(name) in m then Some(m[Lower(name)]) else None
  }

  /** A named value that is given and not blank. */
  predicate Given(m: map<string, string>, name: string) {
    Lookup(m, name).Some? && !IsBlank(Lookup(m, name).value)
  }

  /** The given value of a text option, or its default. */
  function TextOr(m: map<string, string>, name: string, default: string): string {
    if Given(m, name) then Lookup(m, name).value else default
  }

  /** The parsed value of a flag, or its default when it is absent or does not parse. */
  function FlagOr(m: map<string, string>, name: string, parseBool: BoolParser, default: bool): bool {
    var raw := Lookup(m, name);
    if raw.Some? && parseBool(raw.value).Some? then parseBool(raw.value).value else default
  }

  /** A given effectiveFrom that does not parse as a date. */
  predicate BadDate(m: map<string, string>, parseDate: DateParser) {
    Given(m, "effectiveFrom") && parseDate(Lookup(m, "effectiveFrom").value).None?
  }

  function DateOr(m: map<string, string>, parseDate: DateParser): Date {
    if Given(m, "effectiveFrom") && parseDate(Lookup(m, "effectiveFrom").value).Some?
    then parseDate(Lookup(m, "effectiveFrom").value).value
    else Defaults.effectiveFrom
  }

  /** What TryParse yields: a failure with the default options and an error for no
    * arguments, a missing or blank inputZip, or an unparsable effectiveFrom; otherwise
    * success with every option resolved from the dictionary or its default. */
  function Outcome(args: seq<string>, parseDate: DateParser, parseBool: BoolParser): ParseResult {
    if |args| == 0 then ParseResult(false, Defaults, Some(MissingArguments))
    else
      var m := Arguments(args);
      if !Given(m, "inputZip") then ParseResult(false, Defaults, Some(MissingInputZip))
      else if BadDate(m, parseDate) then ParseResult(false, Defaults, Some(InvalidEffectiveFrom))
      else ParseResult(true, Resolved(m, parseDate, parseBool), None)
  }

  function Resolved(m: map<string, string>, parseDate: DateParser, parseBool: BoolParser): Options
    requires Given(m, "inputZip")
  {
    Options(TextOr(m, "codeSystem", Defaults.codeSystem),
            TextOr(m, "codeVersionId", Defaults.codeVersionId),
            DateOr(m, parseDate),
            Lookup(m, "inputZip").value,
            TextOr(m, "modelId", Defaults.modelId),
            FlagOr(m, "embed", parseBool, Defaults.embed),
            FlagOr(m, "aliases", parseBool, Defaults.aliases))
  }

  /** TryParse: scans the arguments into the dictionary, advancing past a value it
    * consumes, then checks inputZip and effectiveFrom and resolves each option. */
  method TryParse(args: seq<string>, parseDate: DateParser, parseBool: BoolParser)
    returns (ok: bool, options: Options, error: Option<string>)
    ensures ParseResult(ok, options, error) == Outcome(args, parseDate, parseBool)
  {
    options := Defaults;
    error := None;
    if |args| == 0 {
      error := Some(MissingArguments);
      return false, options, error;
    }
    var m := ScanArguments(args);
    var inputZip := Lookup(m, "inputZip");
    if inputZip.None? || IsBlank(inputZip.value) {
      error := Some(MissingInputZip);
      return false, options, error;
    }
    var codeSystem := TextOr(m, "codeSystem", options.codeSystem);
    var codeVersionId := TextOr(m, "codeVersionId", options.codeVersionId);
    var modelId := TextOr(m, "modelId", options.modelId);
    var effectiveFrom := options.effectiveFrom;
    var ef := Lookup(m, "effectiveFrom");
    if ef.Some? && !IsBlank(ef.value) {
      var parsed := parseDate(ef.value);
      if parsed.None? {
        error := Some(InvalidEffectiveFrom);
        return false, options, error;
      }
      effectiveFrom := parsed.value;
    }
    var embed := FlagOr(m, "embed", parseBool, options.embed);
    var aliases := FlagOr(m, "aliases", parseBool, options.aliases);
    options := Options(codeSystem, codeVersionId, effectiveFrom, inputZip.value, modelId, embed, aliases);
    return true, options, error;
  }

  /** TryParse's loop: each option argument sets its key, and one without '=' consumes
    * the next argument as its value. */
  method ScanArguments(args: seq<string>) returns (m: map<string, string>)
    ensures m == Arguments(args)
  {
    m := map[];
    var i := 0;
    while i < |args|
      invariant i <= |args|
      invariant ArgMap(args, i, m) == Arguments(args)
      decreases |args| - i
    {
      var arg := args[i];
      if !IsOption(arg) {
        i := i + 1;
        continue;
      }
      var parts := SplitTrimmed(arg);
      KeyPartIsOption(arg);
      var key := parts[0][2..];
      var value;
      if |parts| == 2 {
        value := parts[1];
      } else if i + 1 < |args| {
        i := i + 1;
        value := args[i];
      } else {
        value := "";
      }
      m := m[Lower(key) := value];
      i := i + 1;
    }
  }

  // ---------------------------------------------------------------------
  // The argument scan, one argument at a time

  /** Scanning p + s from the start of s is scanning s. */
  lemma {:induction false} ArgMapShift(p: seq<string>, s: seq<string>, i: nat, acc: map<string, string>)
    requires i <= |s|
    ensures ArgMap(p + s, |p| + i, acc) == ArgMap(s, i, acc)
    decreases |s| - i
  {
    if i < |s| {
      assert (p + s)[|p| + i] == s[i];
      if i + 1 < |s| {
        assert (p + s)[|p| + i + 1] == s[i + 1];
      }
      if !IsOption(s[i]) {
        ArgMapShift(p, s, i + 1, acc);
      } else if |SplitTrimmed(s[i])| == 2 {
        ArgMapShift(p, s, i + 1, acc[KeyOf(s[i]) := SplitTrimmed(s[i])[1]]);
      } else if i + 1 < |s| {
        ArgMapShift(p, s, i + 2, acc[KeyOf(s[i]) := s[i + 1]]);
      }
    }
  }

  /** A key as written after the dashes: no '=' and no trailing white space. */
  predicate PlainKey(k: string) {
    '=' !in k && (k == [] || !IsWhiteSpace(k[|k| - 1]))
  }

  lemma PlainKeyOf(k: string)
    requires PlainKey(k)
    ensures Trim("--" + k) == "--" + k
    ensures '=' !in "--" + k
  {
    TrimOfTrimmed("--" + k);
  }

  /** An argument that is not an option leaves the dictionary as it is. */
  lemma ScanSkip(a: string, rest: seq<string>, acc: map<string, string>)
    requires !IsOption(a)
    ensures ArgMap([a] + rest, 0, acc) == ArgMap(rest, 0, acc)
  {
    ArgMapShift([a], rest, 0, acc);
  }

  /** "--key=value" sets the key, case folded, to the trimmed value; the arguments after
    * it are scanned from there. */
  lemma ScanInline(k: string, v: string, rest: seq<string>, acc: map<string, string>)
    requires PlainKey(k)
    ensures ArgMap(["--" + k + "=" + v] + rest, 0, acc) == ArgMap(rest, 0, acc[Lower(k) := Trim(v)])
  {
    var arg := "--" + k + "=" + v;
    PlainKeyOf(k);
    assert arg == ("--" + k) + ['='] + v;
    SplitFirstOf("--" + k, '=', v);
    assert ("--" + k)[2..] == k;
    assert KeyOf(arg) == Lower(k);
    ArgMapShift([arg], rest, 0, acc[Lower(k) := Trim(v)]);
  }

  /** "--key" followed by another argument sets the key to that argument, whatever it is. */
  lemma ScanSeparate(k: string, v: string, rest: seq<string>, acc: map<string, string>)
    requires PlainKey(k)
    ensures ArgMap(["--" + k, v] + rest, 0, acc) == ArgMap(rest, 0, acc[Lower(k) := v])
  {
    var arg := "--" + k;
    PlainKeyOf(k);
    assert ("--" + k)[2..] == k;
    assert KeyOf(arg) == Lower(k);
    assert ([arg, v] + rest)[1] == v;
    ArgMapShift([arg, v], rest, 0, acc[Lower(k) := v]);
  }

  /** "--key" as the last argument sets the key to "". */
  lemma ScanLastFlag(k: string, acc: map<string, string>)
    requires PlainKey(k)
    ensures ArgMap(["--" + k], 0, acc) == acc[Lower(k) := ""]
  {
    PlainKeyOf(k);
    assert ("--" + k)[2..] == k;
    assert KeyOf("--" + k) == Lower(k);
  }

  /** Keys are case-insensitive and the later of two values for one key wins. */
  lemma LaterKeyWins(k1: string, v1: string, k2: string, v2: string)
    requires PlainKey(k1) && PlainKey(k2) && EqIgnoreCase(k1, k2)
    ensures Lookup(Arguments(["--" + k1 + "=" + v1, "--" + k2 + "=" + v2]), k1) == Some(Trim(v2))
  {
    var a1 := "--" + k1 + "=" + v1;
    var a2 := "--" + k2 + "=" + v2;
    LowerIdempotent(k1);
    ScanInline(k1, v1, [a2], map[]);
    ScanInline(k2, v2, [], map[][Lower(k1) := Trim(v1)]);
    assert [a1, a2] == [a1] + [a2] && [a2] == [a2] + [];
  }

  lemma LowerIdempotent(s: string)
    ensures Lower(Lower(s)) == Lower(s)
  {
  }

  /** A key given without '=' swallows the next argument even when that is an option:
    * "--embed --inputZip=icd.zip" sets embed to "--inputZip=icd.zip" and leaves inputZip
    * missing, so the parse fails. */
  lemma ValueSwallowsOption(k1: string, k2: string, v: string, parseDate: DateParser, parseBool: BoolParser)
    requires PlainKey(k1) && PlainKey(k2)
    requires !EqIgnoreCase(k1, "inputZip")
    ensures Arguments(["--" + k1, "--" + k2 + "=" + v]) == map[Lower(k1) := "--" + k2 + "=" + v]
    ensures Outcome(["--" + k1, "--" + k2 + "=" + v], parseDate, parseBool)
         == ParseResult(false, Defaults, Some(MissingInputZip))
  {
    var args := ["--" + k1, "--" + k2 + "=" + v];
    assert args == ["--" + k1, "--" + k2 + "=" + v] + [];
    ScanSeparate(k1, "--" + k2 + "=" + v, [], map[]);
  }

  // ---------------------------------------------------------------------
  // Properties of the outcome

  /** The parse succeeds exactly when there are arguments, inputZip is given and not
    * blank, and a given effectiveFrom parses; a failure keeps the default options and
    * names its reason, a success has no error. */
  lemma OutcomeVerdict(args: seq<string>, parseDate: DateParser, parseBool: BoolParser)
    ensures var r := Outcome(args, parseDate, parseBool);
      var m := Arguments(args);
      (r.ok <==> |args| > 0 && Given(m, "inputZip") && !BadDate(m, parseDate)) &&
      (r.ok ==> r.error == None) &&
      (!r.ok ==> r.options == Defaults) &&
      (|args| == 0 ==> r.error == Some(MissingArguments)) &&
      (|args| > 0 && !Given(m, "inputZip") ==> r.error == Some(MissingInputZip)) &&
      (|args| > 0 && Given(m, "inputZip") && BadDate(m, parseDate) ==> r.error == Some(InvalidEffectiveFrom))
  {
  }

  /** After a successful parse every text option is non-blank: a given, non-blank value is
    * kept as it is, and a missing or blank one falls back to its non-blank default. */
  lemma ResolvedFields(args: seq<string>, parseDate: DateParser, parseBool: BoolParser)
    requires Outcome(args, parseDate, parseBool).ok
    ensures var o := Outcome(args, parseDate, parseBool).options;
      var m := Arguments(args);
      !IsBlank(o.codeSystem) && !IsBlank(o.codeVersionId) && !IsBlank(o.modelId) && !IsBlank(o.inputZip) &&
      o.inputZip == Lookup(m, "inputZip").value &&
      (Given(m, "codeSystem") ==> o.codeSystem == Lookup(m, "codeSystem").value) &&
      (Given(m, "codeVersionId") ==> o.codeVersionId == Lookup(m, "codeVersionId").value) &&
      (Given(m, "modelId") ==> o.modelId == Lookup(m, "modelId").value) &&
      (!Given(m, "codeSystem") ==> o.codeSystem == Defaults.codeSystem) &&
      (!Given(m, "codeVersionId") ==> o.codeVersionId == Defaults.codeVersionId) &&
      (!Given(m, "modelId") ==> o.modelId == Defaults.modelId) &&
      (!Given(m, "effectiveFrom") ==> o.effectiveFrom == Date(2025, 10, 1)) &&
      (Given(m, "effectiveFrom") ==> Some(o.effectiveFrom) == parseDate(Lookup(m, "effectiveFrom").value))
  {
    assert !IsWhiteSpace(Defaults.codeSystem[0]);
    assert !IsWhiteSpace(Defaults.codeVersionId[0]);
    assert !IsWhiteSpace(Defaults.modelId[0]);
  }

  /** A flag that is absent or does not parse keeps its default, embed off and aliases
    * on; one that parses takes the parsed value. */
  lemma FlagDefaults(args: seq<string>, parseDate: DateParser, parseBool: BoolParser)
    requires Outcome(args, parseDate, parseBool).ok
    ensures var o := Outcome(args, parseDate, parseBool).options;
      var m := Arguments(args);
      (Lookup(m, "embed").None? || parseBool(Lookup(m, "embed").value).None? ==> !o.embed) &&
      (Lookup(m, "aliases").None? || parseBool(Lookup(m, "aliases").value).None? ==> o.aliases) &&
      (Lookup(m, "embed").Some? && parseBool(Lookup(m, "embed").value).Some? ==>
         o.embed == parseBool(Lookup(m, "embed").value).value) &&
      (Lookup(m, "aliases").Some? && parseBool(Lookup(m, "aliases").value).Some? ==>
         o.aliases == parseBool(Lookup(m, "aliases").value).value)
  {
  }
}
