/** The analysis engine: it runs a fixed, ordered list of rules over an
    already-parsed tree, drops diagnostics that inline markers suppress, back-fills
    the rule id, severity and tags a rule left blank, and counts the rules it ran.
    The parse outcome and the two timings are parameters. */
module AnalyzerEngine {
  import opened Wrappers
  import opened Strings
  import opened Diagnostics
  import opened SyntaxTree
  import opened RuleBase
  import opened Configuration
  import opened Rules
  import opened Suppressions
  import Ts

  datatype Engine = Engine(rules: seq<Rule>)

  /** `NewEngine`: the shipped rules in registration order. */
  function NewEngine(): Engine {
    Engine([ErrorsSwallowedRule, NetNoTimeoutRule, RetryUnboundedRule, StateGlobalMutableRule])
  }

  datatype AnalyzeInput = AnalyzeInput(path: string, source: string, lang: string, config: Config, version: string)

  const DefaultVersion := "1.0"

  /** `versionOrDefault`: a blank version becomes "1.0"; any other is kept verbatim. */
  function VersionOrDefault(v: string): (r: string)
    ensures AllSpace(v) ==> r == DefaultVersion
    ensures !AllSpace(v) ==> r == v
  {
    TrimSpaceSpec(v);
    if TrimSpace(v) == "" then DefaultVersion else v
  }

  const ParseErrorExplanation := "The analyzer could not parse this file; results may be incomplete."

  /** The single diagnostic a failed parse produces. */
  function ParseError(err: string): Diagnostic {
    Diagnostic("internal.parse_error", "error", "parse error: " + err, ParseErrorExplanation, FileStart, ["internal"], "")
  }

  /** The diagnostic that stands in for a rule whose `Run` failed. */
  function RuleFailure(id: string, err: string): Diagnostic {
    Diagnostic("internal." + id, "error", "rule " + id + " failed: " + err, "", FileStart, ["internal"], "")
  }

  /** Back-fill of one surviving diagnostic, in the engine's order: the rule's id if
      the id is blank, the configured or default severity if the severity is blank,
      the rule's tags if there are none. */
  function Backfill(cfg: Config, r: Rule, d: Diagnostic): Diagnostic {
    var withId := if d.ruleId == "" then d.(ruleId := ID(r)) else d;
    var withSeverity :=
      if withId.severity == "" then withId.(severity := RuleSeverity(cfg, ID(r), Meta(r).defaultSeverity))
      else withId;
    if |withSeverity.tags| == 0 then withSeverity.(tags := Meta(r).tags) else withSeverity
  }

  /** The diagnostics of one successful rule that reach the output, in the rule's order. */
  function Survivors(index: SuppressionMap, cfg: Config, r: Rule, ds: seq<Diagnostic>): seq<Diagnostic> {
    if ds == [] then []
    else
      var d := ds[|ds| - 1];
      Survivors(index, cfg, r, ds[..|ds| - 1]) + (if ShouldSuppress(index, d) then [] else [Backfill(cfg, r, d)])
  }

  /** A rule runs when the configuration enables it and it supports the language. */
  predicate Eligible(input: AnalyzeInput, r: Rule) {
    RuleEnabled(input.config, ID(r)) && Supports(r, input.lang)
  }

  function ContextOf(input: AnalyzeInput, root: Node): Context {
    Context(input.lang, root, input.source)
  }

  /** How one pass of the rule loop ends: the rule is skipped, its `Run` fails, or
      it returns diagnostics. */
  datatype Attempt =
    | Skipped(rule: Rule)
    | Failed(rule: Rule, error: string)
    | Succeeded(rule: Rule, diags: seq<Diagnostic>)

  /** The pass for rule `r`: skipped unless eligible, otherwise the outcome of its `Run`. */
  function Attempted(input: AnalyzeInput, root: Node, r: Rule): (a: Attempt)
    requires WellFormed(input.source, root)
    ensures a.rule == r
    ensures a.Skipped? <==> !Eligible(input, r)
    ensures IsBuiltin(r) ==> !a.Failed?
  {
    if !Eligible(input, r) then Skipped(r)
    else
      match RunResult(r, ContextOf(input, root))
      case Failure(err) => Failed(r, err)
      case Success(ds) => Succeeded(r, ds)
  }

  /** The passes for the rules `rs`, in order. */
  function Attempts(input: AnalyzeInput, root: Node, rs: seq<Rule>): (r: seq<Attempt>)
    requires WellFormed(input.source, root)
    ensures |r| == |rs|
  {
    if rs == [] then []
    else Attempts(input, root, rs[..|rs| - 1]) + [Attempted(input, root, rs[|rs| - 1])]
  }

  /** What one pass adds to the output. */
  function Contribution(index: SuppressionMap, cfg: Config, a: Attempt): seq<Diagnostic> {
    match a
    case Skipped(_) => []
    case Failed(r, err) => [RuleFailure(ID(r), err)]
    case Succeeded(r, ds) => Survivors(index, cfg, r, ds)
  }

  function Contributions(index: SuppressionMap, cfg: Config, attempts: seq<Attempt>): seq<Diagnostic> {
    if attempts == [] then []
    else Contributions(index, cfg, attempts[..|attempts| - 1]) + Contribution(index, cfg, attempts[|attempts| - 1])
  }

  /** `RulesRun`: the passes whose rule ran and succeeded. */
  function RulesRun(attempts: seq<Attempt>): nat {
    if attempts == [] then 0
    else RulesRun(attempts[..|attempts| - 1]) + (if attempts[|attempts| - 1].Succeeded? then 1 else 0)
  }

  /** What `Analyze` returns for a request, the outcome of parsing its source, and
      the two measured durations. */
  function Analysis(e: Engine, input: AnalyzeInput, parsed: Result<Node, string>, parseMS: int, analyzeMS: int): Output
    requires parsed.Success? ==> WellFormed(input.source, parsed.value)
  {
    var version := VersionOrDefault(input.version);
    if TrimSpace(input.source) == "" then
      Output(version, input.path, input.lang, [], Stats(0, 0, 0))
    else
      match parsed
      case Failure(err) => Output(version, input.path, input.lang, [ParseError(err)], Stats(parseMS, 0, 0))
      case Success(root) =>
        var attempts := Attempts(input, root, e.rules);
        Output(version, input.path, input.lang, Contributions(SuppressionIndex(input.source), input.config, attempts),
               Stats(parseMS, analyzeMS, RulesRun(attempts)))
  }

  /** The loop over one rule's diagnostics: skip the suppressed ones, back-fill and
      append the rest. */
  method AppendSurvivors(index: SuppressionMap, cfg: Config, rule: Rule, diags: seq<Diagnostic>, acc: seq<Diagnostic>)
    returns (res: seq<Diagnostic>)
    ensures res == acc + Survivors(index, cfg, rule, diags)
  {
    res := acc;
    for j := 0 to |diags|
      invariant res == acc + Survivors(index, cfg, rule, diags[..j])
    {
      assert diags[..j + 1][..j] == diags[..j];
      var d := diags[j];
      if ShouldSuppress(index, d) {
        continue;
      }
      if d.ruleId == "" {
        d := d.(ruleId := ID(rule));
      }
      if d.severity == "" {
        d := d.(severity := RuleSeverity(cfg, ID(rule), Meta(rule).defaultSeverity));
      }
      if |d.tags| == 0 {
        d := d.(tags := Meta(rule).tags);
      }
      AppendAssoc(acc, Survivors(index, cfg, rule, diags[..j]), [d]);
      res := res + [d];
    }
    assert diags[..|diags|] == diags;
  }

  /** One pass of the loop over the rules in `Analyze`: skip a disabled or
      unsupporting rule, report a failing one, otherwise append its survivors and
      count it. */
  method ApplyRule(index: SuppressionMap, input: AnalyzeInput, root: Node, rule: Rule, out: Output)
    returns (res: Output)
    requires WellFormed(input.source, root)
    ensures var a := Attempted(input, root, rule);
      res == out.(diagnostics := out.diagnostics + Contribution(index, input.config, a),
                  stats := out.stats.(rulesRun := out.stats.rulesRun + if a.Succeeded? then 1 else 0))
  {
    res := out;
    if !RuleEnabled(input.config, ID(rule)) {
      return;
    }
    if !Supports(rule, input.lang) {
      return;
    }
    var result := Run(rule, ContextOf(input, root));
    if result.Failure? {
      res := res.(diagnostics := res.diagnostics + [RuleFailure(ID(rule), result.error)]);
      return;
    }
    var diags := AppendSurvivors(index, input.config, rule, result.value, res.diagnostics);
    res := res.(diagnostics := diags);
    res := res.(stats := res.stats.(rulesRun := res.stats.rulesRun + 1));
  }

  /** One more rule extends the passes by that rule's pass. */
  lemma AttemptsStep(index: SuppressionMap, input: AnalyzeInput, root: Node, rs: seq<Rule>, i: int)
    requires WellFormed(input.source, root)
    requires 0 <= i < |rs|
    ensures var a := Attempted(input, root, rs[i]);
      && Contributions(index, input.config, Attempts(input, root, rs[..i + 1]))
         == Contributions(index, input.config, Attempts(input, root, rs[..i])) + Contribution(index, input.config, a)
      && RulesRun(Attempts(input, root, rs[..i + 1]))
         == RulesRun(Attempts(input, root, rs[..i])) + if a.Succeeded? then 1 else 0
  {
    assert rs[..i + 1][..i] == rs[..i];
    var before := Attempts(input, root, rs[..i]);
    assert Attempts(input, root, rs[..i + 1])[..i] == before;
  }

  /** `Analyze`. */
  method Analyze(e: Engine, input: AnalyzeInput, parsed: Result<Node, string>, parseMS: int, analyzeMS: int)
    returns (out: Output)
    requires parsed.Success? ==> WellFormed(input.source, parsed.value)
    ensures out == Analysis(e, input, parsed, parseMS, analyzeMS)
  {
    if TrimSpace(input.source) == "" {
      return Output(VersionOrDefault(input.version), input.path, input.lang, [], Stats(0, 0, 0));
    }
    out := Output(VersionOrDefault(input.version), input.path, input.lang, [], Stats(parseMS, 0, 0));
    if parsed.Failure? {
      out := out.(diagnostics := out.diagnostics + [ParseError(parsed.error)]);
      return out;
    }
    var root := parsed.value;
    var suppressions := CollectSuppressions(input.source);
    for i := 0 to |e.rules|
      invariant out.version == VersionOrDefault(input.version) && out.path == input.path && out.language == input.lang
      invariant out.diagnostics == Contributions(suppressions, input.config, Attempts(input, root, e.rules[..i]))
      invariant out.stats == Stats(parseMS, 0, RulesRun(Attempts(input, root, e.rules[..i])))
    {
      AttemptsStep(suppressions, input, root, e.rules, i);
      out := ApplyRule(suppressions, input, root, e.rules[i], out);
    }
    assert e.rules[..|e.rules|] == e.rules;
    out := out.(stats := out.stats.(analyzeMS := analyzeMS));
  }

  /** `ValidateInput`: the first problem found, checked in the order source, language
      tag, language support; `None` when the request is acceptable. */
  function ValidateInput(input: AnalyzeInput): (r: Option<string>)
    ensures r.None? <==> |input.source| > 0 && input.lang != "" && Ts.Supported(input.lang)
    ensures |input.source| == 0 ==> r == Some("source is empty")
    ensures |input.source| > 0 && input.lang == "" ==> r == Some("language is required")
    ensures |input.source| > 0 && input.lang != "" && !Ts.Supported(input.lang) ==>
      r == Some("language " + input.lang + " not supported")
  {
    if |input.source| == 0 then Some("source is empty")
    else if input.lang == "" then Some("language is required")
    else if !Ts.Supported(input.lang) then Some("language " + input.lang + " not supported")
    else None
  }
}
