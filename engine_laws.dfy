/** What the engine promises about its output: rule order, isolation of a failing
    rule, what `RulesRun` counts, back-fill that never overwrites, and file-wide
    suppression keyed on the id a rule supplied. */
module EngineLaws {
  import opened Wrappers
  import opened Strings
  import opened Diagnostics
  import opened SyntaxTree
  import opened RuleBase
  import opened Configuration
  import opened Rules
  import opened Suppressions
  import opened AnalyzerEngine
  import Ts
  import ErrorsSwallowed
  import NetNoTimeout
  import RetryUnbounded
  import StateGlobalMutable
  import opened SuppressionExample

  // Ordering and counting over the passes

  /** The output lists the passes' contributions in the order of the passes. */
  lemma {:induction false} ContributionsAppend(index: SuppressionMap, cfg: Config, a1: seq<Attempt>, a2: seq<Attempt>)
    ensures Contributions(index, cfg, a1 + a2) == Contributions(index, cfg, a1) + Contributions(index, cfg, a2)
  {
    if a2 == [] {
      assert a1 + a2 == a1;
    } else {
      var n := |a2| - 1;
      assert (a1 + a2)[..|a1 + a2| - 1] == a1 + a2[..n];
      assert (a1 + a2)[|a1 + a2| - 1] == a2[n];
      ContributionsAppend(index, cfg, a1, a2[..n]);
      AppendAssoc(Contributions(index, cfg, a1), Contributions(index, cfg, a2[..n]), Contribution(index, cfg, a2[n]));
    }
  }

  /** The count of a run is the sum of the counts of its parts. */
  lemma {:induction false} RulesRunAppend(a1: seq<Attempt>, a2: seq<Attempt>)
    ensures RulesRun(a1 + a2) == RulesRun(a1) + RulesRun(a2)
  {
    if a2 == [] {
      assert a1 + a2 == a1;
    } else {
      var n := |a2| - 1;
      assert (a1 + a2)[..|a1 + a2| - 1] == a1 + a2[..n];
      assert (a1 + a2)[|a1 + a2| - 1] == a2[n];
      RulesRunAppend(a1, a2[..n]);
    }
  }

  /** `RulesRun` never exceeds the number of passes; it reaches it exactly when every
      pass succeeded, and it is zero exactly when none did. */
  lemma {:induction false} RulesRunBounds(attempts: seq<Attempt>)
    ensures RulesRun(attempts) <= |attempts|
    ensures RulesRun(attempts) == |attempts| <==> forall i :: 0 <= i < |attempts| ==> attempts[i].Succeeded?
    ensures RulesRun(attempts) == 0 <==> forall i :: 0 <= i < |attempts| ==> !attempts[i].Succeeded?
  {
    if attempts != [] {
      var n := |attempts| - 1;
      RulesRunBounds(attempts[..n]);
      assert forall i :: 0 <= i < n ==> attempts[..n][i] == attempts[i];
    }
  }

  /** A failing rule adds exactly its `internal.<id>` error diagnostic, is not counted,
      and the rules around it contribute as if it were absent. */
  lemma FailureIsolation(index: SuppressionMap, cfg: Config, before: seq<Attempt>, r: Rule, err: string, after: seq<Attempt>)
    ensures Contributions(index, cfg, before + [Failed(r, err)] + after) ==
      Contributions(index, cfg, before) + [RuleFailure(ID(r), err)] + Contributions(index, cfg, after)
    ensures RulesRun(before + [Failed(r, err)] + after) == RulesRun(before) + RulesRun(after)
    ensures var f := RuleFailure(ID(r), err);
      f.ruleId == "internal." + ID(r) && f.severity == "error" && f.tags == ["internal"] && f.range == FileStart
  {
    ContributionsAppend(index, cfg, before, [Failed(r, err)]);
    ContributionsAppend(index, cfg, before + [Failed(r, err)], after);
    RulesRunAppend(before, [Failed(r, err)]);
    RulesRunAppend(before + [Failed(r, err)], after);
    assert Contributions(index, cfg, [Failed(r, err)]) == [RuleFailure(ID(r), err)] by {
      assert [Failed(r, err)][..0] == [];
    }
    assert RulesRun([Failed(r, err)]) == 0 by {
      assert [Failed(r, err)][..0] == [];
    }
  }

  /** A skipped rule, disabled or not supporting the language, leaves no trace. */
  lemma SkippedLeavesNoTrace(index: SuppressionMap, cfg: Config, before: seq<Attempt>, r: Rule, after: seq<Attempt>)
    ensures Contributions(index, cfg, before + [Skipped(r)] + after) ==
      Contributions(index, cfg, before) + Contributions(index, cfg, after)
    ensures RulesRun(before + [Skipped(r)] + after) == RulesRun(before) + RulesRun(after)
  {
    ContributionsAppend(index, cfg, before, [Skipped(r)]);
    ContributionsAppend(index, cfg, before + [Skipped(r)], after);
    RulesRunAppend(before, [Skipped(r)]);
    RulesRunAppend(before + [Skipped(r)], after);
    assert [Skipped(r)][..0] == [];
    assert Contribution(index, cfg, Skipped(r)) == [];
    assert Contributions(index, cfg, before) + [] == Contributions(index, cfg, before);
  }

  // Back-fill

  /** Back-fill never overwrites an explicit value: a supplied id, severity or tag
      list is kept, a blank one is filled from the rule (the severity through the
      configuration), and nothing else changes. */
  lemma BackfillNeverOverwrites(cfg: Config, r: Rule, d: Diagnostic)
    ensures var b := Backfill(cfg, r, d);
      && (d.ruleId != "" ==> b.ruleId == d.ruleId)
      && (d.ruleId == "" ==> b.ruleId == ID(r))
      && (d.severity != "" ==> b.severity == d.severity)
      && (d.severity == "" ==> b.severity == RuleSeverity(cfg, ID(r), Meta(r).defaultSeverity))
      && (d.tags != [] ==> b.tags == d.tags)
      && (d.tags == [] ==> b.tags == Meta(r).tags)
      && b.message == d.message && b.explanation == d.explanation
      && b.range == d.range && b.docsUrl == d.docsUrl
  {
  }

  /** A non-blank configured severity is what a diagnostic without a severity gets. */
  lemma ConfiguredSeverityFillsBlank(cfg: Config, r: Rule, d: Diagnostic)
    requires d.severity == ""
    requires ID(r) in cfg.rules && cfg.rules[ID(r)].severity != ""
    ensures Backfill(cfg, r, d).severity == cfg.rules[ID(r)].severity
  {
  }

  /** Back-filling a back-filled diagnostic changes nothing. */
  lemma BackfillIdempotent(cfg: Config, r: Rule, d: Diagnostic)
    ensures Backfill(cfg, r, Backfill(cfg, r, d)) == Backfill(cfg, r, d)
  {
    var b := Backfill(cfg, r, d);
    BackfillNeverOverwrites(cfg, r, d);
    BackfillNeverOverwrites(cfg, r, b);
  }

  /** After back-fill by a shipped rule, the id and severity are never blank and the
      tag list is never empty. */
  lemma BuiltinBackfillIsComplete(cfg: Config, r: Rule, d: Diagnostic)
    requires IsBuiltin(r)
    ensures Backfill(cfg, r, d).ruleId != ""
    ensures Backfill(cfg, r, d).severity != ""
    ensures |Backfill(cfg, r, d).tags| > 0
  {
    BackfillNeverOverwrites(cfg, r, d);
    assert ID(r) != "" && Meta(r).defaultSeverity != "" && |Meta(r).tags| > 0 by {
      match r {
        case ErrorsSwallowedRule =>
        case NetNoTimeoutRule =>
        case RetryUnboundedRule =>
        case StateGlobalMutableRule =>
      }
    }
  }

  // Survivors of one rule

  /** Survivors keep the rule's own order: the survivors of a concatenation are the
      concatenation of the survivors. */
  lemma {:induction false} SurvivorsAppend(index: SuppressionMap, cfg: Config, r: Rule, ds1: seq<Diagnostic>, ds2: seq<Diagnostic>)
    ensures Survivors(index, cfg, r, ds1 + ds2) == Survivors(index, cfg, r, ds1) + Survivors(index, cfg, r, ds2)
  {
    if ds2 == [] {
      assert ds1 + ds2 == ds1;
    } else {
      var n := |ds2| - 1;
      assert (ds1 + ds2)[..|ds1 + ds2| - 1] == ds1 + ds2[..n];
      assert (ds1 + ds2)[|ds1 + ds2| - 1] == ds2[n];
      SurvivorsAppend(index, cfg, r, ds1, ds2[..n]);
      var last := if ShouldSuppress(index, ds2[n]) then [] else [Backfill(cfg, r, ds2[n])];
      AppendAssoc(Survivors(index, cfg, r, ds1), Survivors(index, cfg, r, ds2[..n]), last);
    }
  }

  /** The survivors are no more than the rule returned, and they are exactly the
      back-filled forms of the diagnostics that are not suppressed. */
  lemma {:induction false} SurvivorsSpec(index: SuppressionMap, cfg: Config, r: Rule, ds: seq<Diagnostic>, x: Diagnostic)
    ensures |Survivors(index, cfg, r, ds)| <= |ds|
    ensures x in Survivors(index, cfg, r, ds) <==>
      exists i :: 0 <= i < |ds| && !ShouldSuppress(index, ds[i]) && x == Backfill(cfg, r, ds[i])
  {
    if ds != [] {
      var n := |ds| - 1;
      SurvivorsSpec(index, cfg, r, ds[..n], x);
      assert forall i :: 0 <= i < n ==> ds[..n][i] == ds[i];
    }
  }

  /** When nothing is suppressed, every diagnostic survives, back-filled, in place. */
  lemma {:induction false} NothingSuppressed(index: SuppressionMap, cfg: Config, r: Rule, ds: seq<Diagnostic>)
    requires forall i :: 0 <= i < |ds| ==> !ShouldSuppress(index, ds[i])
    ensures |Survivors(index, cfg, r, ds)| == |ds|
    ensures forall i :: 0 <= i < |ds| ==> Survivors(index, cfg, r, ds)[i] == Backfill(cfg, r, ds[i])
  {
    if ds != [] {
      var n := |ds| - 1;
      NothingSuppressed(index, cfg, r, ds[..n]);
    }
  }

  /** When everything is suppressed, nothing survives. */
  lemma {:induction false} AllSuppressed(index: SuppressionMap, cfg: Config, r: Rule, ds: seq<Diagnostic>)
    requires forall i :: 0 <= i < |ds| ==> ShouldSuppress(index, ds[i])
    ensures Survivors(index, cfg, r, ds) == []
  {
    if ds != [] {
      AllSuppressed(index, cfg, r, ds[..|ds| - 1]);
    }
  }

  /** Suppression is decided on the id the rule supplied, before back-fill: one
      diagnostic is dropped exactly when some line's marker lists its own id,
      whichever rule produced it; a blank id therefore always survives. */
  lemma SuppressionUsesSuppliedId(source: string, cfg: Config, r: Rule, d: Diagnostic)
    ensures Survivors(SuppressionIndex(source), cfg, r, [d]) == [] <==>
      exists i :: 0 <= i < |Lines(source)| && d.ruleId in MarkerIds(Lines(source)[i])
    ensures d.ruleId == "" ==> Survivors(SuppressionIndex(source), cfg, r, [d]) == [Backfill(cfg, r, d)]
  {
    assert [d][..0] == [];
    SuppressionIsFileWide(source, d);
    if d.ruleId == "" {
      BlankIdIsNeverSuppressed(source, d);
    }
  }

  // The passes of a rule list

  /** Running two lists of rules one after the other gives the passes of each, in order. */
  lemma {:induction false} AttemptsAppend(input: AnalyzeInput, root: Node, rs1: seq<Rule>, rs2: seq<Rule>)
    requires WellFormed(input.source, root)
    ensures Attempts(input, root, rs1 + rs2) == Attempts(input, root, rs1) + Attempts(input, root, rs2)
  {
    if rs2 == [] {
      assert rs1 + rs2 == rs1;
    } else {
      var n := |rs2| - 1;
      assert (rs1 + rs2)[..|rs1 + rs2| - 1] == rs1 + rs2[..n];
      assert (rs1 + rs2)[|rs1 + rs2| - 1] == rs2[n];
      AttemptsAppend(input, root, rs1, rs2[..n]);
    }
  }

  /** Pass `i` is the pass of rule `i`. */
  lemma {:induction false} AttemptsSpec(input: AnalyzeInput, root: Node, rs: seq<Rule>, i: int)
    requires WellFormed(input.source, root)
    requires 0 <= i < |rs|
    ensures Attempts(input, root, rs)[i] == Attempted(input, root, rs[i])
  {
    var n := |rs| - 1;
    if i < n {
      AttemptsSpec(input, root, rs[..n], i);
    }
  }

  /** The rules in `rs` that the configuration enables and that support the language. */
  function EligibleCount(input: AnalyzeInput, rs: seq<Rule>): nat {
    if rs == [] then 0
    else EligibleCount(input, rs[..|rs| - 1]) + (if Eligible(input, rs[|rs| - 1]) then 1 else 0)
  }

  /** The rules in `rs` that are eligible and whose `Run` succeeds. */
  function SucceededCount(input: AnalyzeInput, root: Node, rs: seq<Rule>): nat
    requires WellFormed(input.source, root)
  {
    if rs == [] then 0
    else
      var r := rs[|rs| - 1];
      SucceededCount(input, root, rs[..|rs| - 1])
        + (if Eligible(input, r) && RunResult(r, ContextOf(input, root)).Success? then 1 else 0)
  }

  /** `RulesRun` counts the eligible rules whose `Run` succeeded. */
  lemma {:induction false} RulesRunCounts(input: AnalyzeInput, root: Node, rs: seq<Rule>)
    requires WellFormed(input.source, root)
    ensures RulesRun(Attempts(input, root, rs)) == SucceededCount(input, root, rs)
  {
    if rs != [] {
      var n := |rs| - 1;
      RulesRunCounts(input, root, rs[..n]);
      assert Attempts(input, root, rs)[..n] == Attempts(input, root, rs[..n]);
    }
  }

  /** A rule counts only if it is eligible, and a shipped rule that is eligible
      always counts. */
  lemma {:induction false} SucceededWithinEligible(input: AnalyzeInput, root: Node, rs: seq<Rule>)
    requires WellFormed(input.source, root)
    ensures SucceededCount(input, root, rs) <= EligibleCount(input, rs)
    ensures (forall i :: 0 <= i < |rs| ==> IsBuiltin(rs[i])) ==> SucceededCount(input, root, rs) == EligibleCount(input, rs)
  {
    if rs != [] {
      var n := |rs| - 1;
      SucceededWithinEligible(input, root, rs[..n]);
      assert forall i :: 0 <= i < n ==> rs[..n][i] == rs[i];
    }
  }

  // Suppression of a shipped rule

  /** A shipped rule whose id some marker lists contributes nothing, whatever line
      its findings are on. */
  lemma ListedBuiltinIsSilenced(input: AnalyzeInput, root: Node, r: Rule)
    requires WellFormed(input.source, root)
    requires IsBuiltin(r)
    requires exists i :: 0 <= i < |Lines(input.source)| && ID(r) in MarkerIds(Lines(input.source)[i])
    ensures Contribution(SuppressionIndex(input.source), input.config, Attempted(input, root, r)) == []
  {
    var a := Attempted(input, root, r);
    if a.Succeeded? {
      var ds := a.diags;
      assert ds == RunResult(r, ContextOf(input, root)).value;
      forall i | 0 <= i < |ds|
        ensures ShouldSuppress(SuppressionIndex(input.source), ds[i])
      {
        assert ds[i] in ds;
        SuppressionIsFileWide(input.source, ds[i]);
      }
      AllSuppressed(SuppressionIndex(input.source), input.config, r, ds);
    }
  }

  /** A shipped rule whose id no marker lists keeps every finding, back-filled, in
      the order it reported them. */
  lemma UnlistedBuiltinKeepsAll(input: AnalyzeInput, root: Node, r: Rule)
    requires WellFormed(input.source, root)
    requires IsBuiltin(r) && Eligible(input, r)
    requires forall i :: 0 <= i < |Lines(input.source)| ==> ID(r) !in MarkerIds(Lines(input.source)[i])
    ensures var ds := RunResult(r, ContextOf(input, root)).value;
      var c := Contribution(SuppressionIndex(input.source), input.config, Attempted(input, root, r));
      |c| == |ds| && forall i :: 0 <= i < |ds| ==> c[i] == Backfill(input.config, r, ds[i])
  {
    var ds := RunResult(r, ContextOf(input, root)).value;
    forall i | 0 <= i < |ds|
      ensures !ShouldSuppress(SuppressionIndex(input.source), ds[i])
    {
      assert ds[i] in ds;
      SuppressionIsFileWide(input.source, ds[i]);
    }
    NothingSuppressed(SuppressionIndex(input.source), input.config, r, ds);
  }

  /** What a shipped rule contributes is made of back-filled findings of the rule
      that no marker suppresses. */
  lemma BuiltinContributionFrom(index: SuppressionMap, input: AnalyzeInput, root: Node, r: Rule, x: Diagnostic)
    requires WellFormed(input.source, root)
    requires IsBuiltin(r)
    requires x in Contribution(index, input.config, Attempted(input, root, r))
    ensures exists d :: d in RunResult(r, ContextOf(input, root)).value && !ShouldSuppress(index, d)
                        && x == Backfill(input.config, r, d)
  {
    var ds := Attempted(input, root, r).diags;
    assert ds == RunResult(r, ContextOf(input, root)).value;
    SurvivorsSpec(index, input.config, r, ds, x);
    var i :| 0 <= i < |ds| && !ShouldSuppress(index, ds[i]) && x == Backfill(input.config, r, ds[i]);
    assert ds[i] in ds;
  }

  /** Every diagnostic a shipped rule contributes carries that rule's id. */
  lemma BuiltinContributionIds(index: SuppressionMap, input: AnalyzeInput, root: Node, r: Rule)
    requires WellFormed(input.source, root)
    requires IsBuiltin(r)
    ensures forall x :: x in Contribution(index, input.config, Attempted(input, root, r)) ==> x.ruleId == ID(r)
  {
    forall x | x in Contribution(index, input.config, Attempted(input, root, r))
      ensures x.ruleId == ID(r)
    {
      BuiltinContributionFrom(index, input, root, r, x);
      var d :| d in RunResult(r, ContextOf(input, root)).value && !ShouldSuppress(index, d)
               && x == Backfill(input.config, r, d);
      assert d.ruleId == ID(r);
    }
  }

  /** An explicit severity survives the configuration: the JavaScript findings of
      the network rule reach the output as "info" whatever severity is configured. */
  lemma ExplicitSeverityIgnoresConfig(input: AnalyzeInput, root: Node, x: Diagnostic)
    requires WellFormed(input.source, root)
    requires DialectOf(input.lang) == Some(JavaScript)
    requires x in Contribution(SuppressionIndex(input.source), input.config, Attempted(input, root, NetNoTimeoutRule))
    ensures x.severity == "info"
  {
    NetNoTimeout.FindingsShape(JavaScript, input.source, root);
    BuiltinContributionFrom(SuppressionIndex(input.source), input, root, NetNoTimeoutRule, x);
  }

  // Whole analyses

  /** A source that is blank after trimming is not analysed: whatever the parse
      outcome and timings, there are no diagnostics, all stats are zero and the
      version is the request's, defaulted when blank. */
  lemma BlankSourceIsNotAnalysed(e: Engine, input: AnalyzeInput, parsed: Result<Node, string>, parseMS: int, analyzeMS: int)
    requires parsed.Success? ==> WellFormed(input.source, parsed.value)
    requires AllSpace(input.source)
    ensures Analysis(e, input, parsed, parseMS, analyzeMS) ==
      Output(VersionOrDefault(input.version), input.path, input.lang, [], Stats(0, 0, 0))
  {
    TrimSpaceSpec(input.source);
  }

  /** A parse failure yields exactly one error diagnostic, `internal.parse_error`
      on the first character with the "internal" tag, and no rule runs. */
  lemma ParseFailureIsReported(e: Engine, input: AnalyzeInput, err: string, parseMS: int, analyzeMS: int)
    requires !AllSpace(input.source)
    ensures var out := Analysis(e, input, Failure(err), parseMS, analyzeMS);
      && |out.diagnostics| == 1
      && out.diagnostics[0].ruleId == "internal.parse_error"
      && out.diagnostics[0].severity == "error"
      && out.diagnostics[0].range == Range(Position(0, 0), Position(0, 1))
      && out.diagnostics[0].tags == ["internal"]
      && out.stats == Stats(parseMS, 0, 0)
  {
    TrimSpaceSpec(input.source);
  }

  /** A rule whose `Run` fails is reported in its place by one `internal.<id>`
      diagnostic and not counted; the rules before and after it run as usual. */
  lemma FailingRuleIsIsolated(input: AnalyzeInput, root: Node, before: seq<Rule>, r: Rule, after: seq<Rule>,
                              parseMS: int, analyzeMS: int)
    requires WellFormed(input.source, root)
    requires !AllSpace(input.source)
    requires Eligible(input, r) && RunResult(r, ContextOf(input, root)).Failure?
    ensures var out := Analysis(Engine(before + [r] + after), input, Success(root), parseMS, analyzeMS);
      var index := SuppressionIndex(input.source);
      && out.diagnostics == Contributions(index, input.config, Attempts(input, root, before))
           + [RuleFailure(ID(r), RunResult(r, ContextOf(input, root)).error)]
           + Contributions(index, input.config, Attempts(input, root, after))
      && out.stats.rulesRun == RulesRun(Attempts(input, root, before)) + RulesRun(Attempts(input, root, after))
  {
    TrimSpaceSpec(input.source);
    var err := RunResult(r, ContextOf(input, root)).error;
    AttemptsAppend(input, root, before, [r]);
    AttemptsAppend(input, root, before + [r], after);
    assert Attempts(input, root, [r]) == [Failed(r, err)] by {
      assert [r][..0] == [];
    }
    FailureIsolation(SuppressionIndex(input.source), input.config, Attempts(input, root, before), r, err,
                     Attempts(input, root, after));
  }

  /** The shipped engine registers its rules in this order. */
  lemma RegistrationOrder()
    ensures |NewEngine().rules| == 4
    ensures forall i :: 0 <= i < 4 ==> IsBuiltin(NewEngine().rules[i])
    ensures ID(NewEngine().rules[0]) == "errors.swallowed"
    ensures ID(NewEngine().rules[1]) == "net.no_timeout"
    ensures ID(NewEngine().rules[2]) == "retry.unbounded"
    ensures ID(NewEngine().rules[3]) == "state.global_mutable"
  {
  }

  /** The passes of the shipped engine, one per rule in registration order. */
  lemma NewEnginePasses(input: AnalyzeInput, root: Node)
    requires WellFormed(input.source, root)
    ensures Attempts(input, root, NewEngine().rules) ==
      [Attempted(input, root, ErrorsSwallowedRule), Attempted(input, root, NetNoTimeoutRule),
       Attempted(input, root, RetryUnboundedRule), Attempted(input, root, StateGlobalMutableRule)]
  {
    var r0, r1, r2, r3 := ErrorsSwallowedRule, NetNoTimeoutRule, RetryUnboundedRule, StateGlobalMutableRule;
    assert Attempts(input, root, [r0]) == [Attempted(input, root, r0)] by {
      assert [r0][..0] == [];
    }
    assert Attempts(input, root, [r0, r1]) == [Attempted(input, root, r0), Attempted(input, root, r1)] by {
      assert [r0, r1][..1] == [r0];
    }
    assert Attempts(input, root, [r0, r1, r2]) ==
      [Attempted(input, root, r0), Attempted(input, root, r1), Attempted(input, root, r2)] by {
      assert [r0, r1, r2][..2] == [r0, r1];
    }
    assert [r0, r1, r2, r3][..3] == [r0, r1, r2];
  }

  lemma ContributionsSnoc(index: SuppressionMap, cfg: Config, attempts: seq<Attempt>, a: Attempt)
    ensures Contributions(index, cfg, attempts + [a]) == Contributions(index, cfg, attempts) + Contribution(index, cfg, a)
  {
    assert (attempts + [a])[..|attempts|] == attempts;
  }

  /** Four passes contribute in their order. */
  lemma ContributionsOfFour(index: SuppressionMap, cfg: Config, a0: Attempt, a1: Attempt, a2: Attempt, a3: Attempt)
    ensures Contributions(index, cfg, [a0, a1, a2, a3]) ==
      Contribution(index, cfg, a0) + Contribution(index, cfg, a1) + Contribution(index, cfg, a2) + Contribution(index, cfg, a3)
  {
    var c0, c1, c2, c3 := Contribution(index, cfg, a0), Contribution(index, cfg, a1),
                          Contribution(index, cfg, a2), Contribution(index, cfg, a3);
    ContributionsSnoc(index, cfg, [], a0);
    assert [] + [a0] == [a0];
    assert Contributions(index, cfg, [a0]) == c0 by {
      assert Contributions(index, cfg, []) == [];
      assert [] + c0 == c0;
    }
    ContributionsSnoc(index, cfg, [a0], a1);
    assert [a0] + [a1] == [a0, a1];
    ContributionsSnoc(index, cfg, [a0, a1], a2);
    assert [a0, a1] + [a2] == [a0, a1, a2];
    ContributionsSnoc(index, cfg, [a0, a1, a2], a3);
    assert [a0, a1, a2] + [a3] == [a0, a1, a2, a3];
  }

  /** Passes that are all skipped contribute nothing and count nothing. */
  lemma {:induction false} SkippedPasses(index: SuppressionMap, cfg: Config, attempts: seq<Attempt>)
    requires forall i :: 0 <= i < |attempts| ==> attempts[i].Skipped?
    ensures Contributions(index, cfg, attempts) == []
    ensures RulesRun(attempts) == 0
  {
    if attempts != [] {
      SkippedPasses(index, cfg, attempts[..|attempts| - 1]);
    }
  }

  /** `EligibleCount` is the length when every rule is eligible and zero when none is. */
  lemma {:induction false} EligibleCountBounds(input: AnalyzeInput, rs: seq<Rule>)
    ensures EligibleCount(input, rs) <= |rs|
    ensures (forall i :: 0 <= i < |rs| ==> Eligible(input, rs[i])) ==> EligibleCount(input, rs) == |rs|
    ensures (forall i :: 0 <= i < |rs| ==> !Eligible(input, rs[i])) ==> EligibleCount(input, rs) == 0
  {
    if rs != [] {
      var n := |rs| - 1;
      EligibleCountBounds(input, rs[..n]);
      assert forall i :: 0 <= i < n ==> rs[..n][i] == rs[i];
    }
  }

  /** The shipped engine's diagnostics: the surviving findings of each rule, in
      registration order. */
  lemma NewEngineOutput(input: AnalyzeInput, root: Node, parseMS: int, analyzeMS: int)
    requires WellFormed(input.source, root)
    requires !AllSpace(input.source)
    ensures var index := SuppressionIndex(input.source);
      Analysis(NewEngine(), input, Success(root), parseMS, analyzeMS).diagnostics ==
        Contribution(index, input.config, Attempted(input, root, ErrorsSwallowedRule))
        + Contribution(index, input.config, Attempted(input, root, NetNoTimeoutRule))
        + Contribution(index, input.config, Attempted(input, root, RetryUnboundedRule))
        + Contribution(index, input.config, Attempted(input, root, StateGlobalMutableRule))
  {
    TrimSpaceSpec(input.source);
    NewEnginePasses(input, root);
    ContributionsOfFour(SuppressionIndex(input.source), input.config,
      Attempted(input, root, ErrorsSwallowedRule), Attempted(input, root, NetNoTimeoutRule),
      Attempted(input, root, RetryUnboundedRule), Attempted(input, root, StateGlobalMutableRule));
  }

  /** With the shipped engine, `RulesRun` counts the rules the configuration enables
      and that support the language. */
  lemma NewEngineCount(input: AnalyzeInput, root: Node, parseMS: int, analyzeMS: int)
    requires WellFormed(input.source, root)
    requires !AllSpace(input.source)
    ensures Analysis(NewEngine(), input, Success(root), parseMS, analyzeMS).stats.rulesRun ==
      EligibleCount(input, NewEngine().rules)
  {
    BuiltinEngineCount(NewEngine(), input, root, parseMS, analyzeMS);
  }

  /** For any engine made of shipped rules, `RulesRun` counts the eligible rules. */
  lemma BuiltinEngineCount(e: Engine, input: AnalyzeInput, root: Node, parseMS: int, analyzeMS: int)
    requires WellFormed(input.source, root)
    requires !AllSpace(input.source)
    requires forall i :: 0 <= i < |e.rules| ==> IsBuiltin(e.rules[i])
    ensures Analysis(e, input, Success(root), parseMS, analyzeMS).stats.rulesRun == EligibleCount(input, e.rules)
  {
    TrimSpaceSpec(input.source);
    RulesRunCounts(input, root, e.rules);
    SucceededWithinEligible(input, root, e.rules);
  }

  /** On a supported language with no shipped rule disabled, all four rules are
      eligible; on an unsupported language none is. */
  lemma NewEngineEligibility(input: AnalyzeInput)
    ensures (Ts.Supported(input.lang) && forall i :: 0 <= i < 4 ==> RuleEnabled(input.config, ID(NewEngine().rules[i])))
      ==> EligibleCount(input, NewEngine().rules) == 4
    ensures !Ts.Supported(input.lang) ==> EligibleCount(input, NewEngine().rules) == 0
  {
    BuiltinEligibility(input, NewEngine().rules);
  }

  /** For rules that are all shipped ones, eligibility is decided by the language
      and the configuration alone. */
  lemma BuiltinEligibility(input: AnalyzeInput, rs: seq<Rule>)
    requires forall i :: 0 <= i < |rs| ==> IsBuiltin(rs[i])
    ensures (Ts.Supported(input.lang) && forall i :: 0 <= i < |rs| ==> RuleEnabled(input.config, ID(rs[i])))
      ==> EligibleCount(input, rs) == |rs|
    ensures !Ts.Supported(input.lang) ==> EligibleCount(input, rs) == 0
  {
    forall i | 0 <= i < |rs|
      ensures Supports(rs[i], input.lang) <==> Ts.Supported(input.lang)
    {
      BuiltinSupported(rs[i], input.lang);
    }
    EligibleCountBounds(input, rs);
  }

  /** The rules loop skips every shipped rule on an unsupported language. Only a tree
      reaches that loop, and `ts.Parse` yields none for such a language
      (`UnsupportedLanguageIsParseError`), so this is a fact about the loop alone. */
  lemma UnsupportedLanguageIsSilent(input: AnalyzeInput, root: Node, parseMS: int, analyzeMS: int)
    requires WellFormed(input.source, root)
    requires !AllSpace(input.source)
    requires !Ts.Supported(input.lang)
    ensures Analysis(NewEngine(), input, Success(root), parseMS, analyzeMS).diagnostics == []
  {
    var rs := NewEngine().rules;
    TrimSpaceSpec(input.source);
    SupportedIffDialect(input.lang);
    var a := Attempts(input, root, rs);
    forall i | 0 <= i < |a|
      ensures a[i].Skipped?
    {
      AttemptsSpec(input, root, rs, i);
    }
    SkippedPasses(SuppressionIndex(input.source), input.config, a);
  }

  /** What `ts.Parse` guarantees: it only yields a tree for a language the parser
      registry knows, and reports an error for any other. */
  predicate ParsedByRegistry(lang: string, parsed: Result<Node, string>) {
    parsed.Success? ==> Ts.Supported(lang)
  }

  /** With a parser that keeps to the registry, a non-blank source in an unsupported
      language never reaches the rules: the output is the single parse error, with
      only the parse time recorded and no rule counted. */
  lemma UnsupportedLanguageIsParseError(e: Engine, input: AnalyzeInput, parsed: Result<Node, string>,
                                        parseMS: int, analyzeMS: int)
    requires parsed.Success? ==> WellFormed(input.source, parsed.value)
    requires ParsedByRegistry(input.lang, parsed)
    requires !AllSpace(input.source)
    requires !Ts.Supported(input.lang)
    ensures parsed.Failure?
    ensures var out := Analysis(e, input, parsed, parseMS, analyzeMS);
      && |out.diagnostics| == 1
      && out.diagnostics[0].ruleId == "internal.parse_error"
      && out.diagnostics[0].severity == "error"
      && out.stats == Stats(parseMS, 0, 0)
  {
    ParseFailureIsReported(e, input, parsed.error, parseMS, analyzeMS);
  }

  /** A request `ValidateInput` accepts is in a language every shipped rule supports. */
  lemma ValidatedLanguageIsSupported(input: AnalyzeInput, r: Rule)
    requires ValidateInput(input) == None
    requires IsBuiltin(r)
    ensures Supports(r, input.lang)
  {
    SupportedIffDialect(input.lang);
  }

  // The suppression scenario of the engine's own test

  const ScenarioInput := AnalyzeInput("example.py", ScenarioSource, "python", Empty, "1.0")

  /** The request the test builds passes validation and its source is not blank. */
  lemma ScenarioIsValid()
    ensures ValidateInput(ScenarioInput) == None
    ensures !AllSpace(ScenarioInput.source)
  {
    Ts.PythonIsLower();
    assert !IsSpace(ScenarioInput.source[0]);
  }

  /** Some line of the source lists `errors.swallowed`. */
  predicate ListsErrorsSwallowed(source: string) {
    exists i :: 0 <= i < |Lines(source)| && ErrorsSwallowed.ID in MarkerIds(Lines(source)[i])
  }

  /** When some line lists `errors.swallowed`, the shipped engine's output is what
      the other three rules contribute. */
  lemma SilencedOutput(input: AnalyzeInput, root: Node, parseMS: int, analyzeMS: int)
    requires WellFormed(input.source, root)
    requires !AllSpace(input.source)
    requires ListsErrorsSwallowed(input.source)
    ensures var index := SuppressionIndex(input.source);
      Analysis(NewEngine(), input, Success(root), parseMS, analyzeMS).diagnostics ==
        Contribution(index, input.config, Attempted(input, root, NetNoTimeoutRule))
        + Contribution(index, input.config, Attempted(input, root, RetryUnboundedRule))
        + Contribution(index, input.config, Attempted(input, root, StateGlobalMutableRule))
  {
    var index := SuppressionIndex(input.source);
    ListedBuiltinIsSilenced(input, root, ErrorsSwallowedRule);
    NewEngineOutput(input, root, parseMS, analyzeMS);
    DropEmptyHead(Contribution(index, input.config, Attempted(input, root, ErrorsSwallowedRule)),
      Contribution(index, input.config, Attempted(input, root, NetNoTimeoutRule)),
      Contribution(index, input.config, Attempted(input, root, RetryUnboundedRule)),
      Contribution(index, input.config, Attempted(input, root, StateGlobalMutableRule)));
  }

  lemma DropEmptyHead(a: seq<Diagnostic>, b: seq<Diagnostic>, c: seq<Diagnostic>, d: seq<Diagnostic>)
    requires a == []
    ensures a + b + c + d == b + c + d
  {
    assert a + b == b;
  }

  /** In that output every id belongs to one of the other rules, all of another
      length than `errors.swallowed`. */
  lemma SilencedIds(input: AnalyzeInput, root: Node, parseMS: int, analyzeMS: int)
    requires WellFormed(input.source, root)
    requires !AllSpace(input.source)
    requires ListsErrorsSwallowed(input.source)
    ensures forall x :: x in Analysis(NewEngine(), input, Success(root), parseMS, analyzeMS).diagnostics ==>
      |x.ruleId| != |ErrorsSwallowed.ID|
  {
    SilencedOutput(input, root, parseMS, analyzeMS);
    OtherRulesIds(SuppressionIndex(input.source), input, root);
  }

  /** What the other three shipped rules contribute carries ids of another length
      than `errors.swallowed`. */
  lemma OtherRulesIds(index: SuppressionMap, input: AnalyzeInput, root: Node)
    requires WellFormed(input.source, root)
    ensures forall x :: x in Contribution(index, input.config, Attempted(input, root, NetNoTimeoutRule))
                          + Contribution(index, input.config, Attempted(input, root, RetryUnboundedRule))
                          + Contribution(index, input.config, Attempted(input, root, StateGlobalMutableRule))
                     ==> |x.ruleId| != |ErrorsSwallowed.ID|
  {
    var c1 := Contribution(index, input.config, Attempted(input, root, NetNoTimeoutRule));
    var c2 := Contribution(index, input.config, Attempted(input, root, RetryUnboundedRule));
    var c3 := Contribution(index, input.config, Attempted(input, root, StateGlobalMutableRule));
    BuiltinContributionIds(index, input, root, NetNoTimeoutRule);
    BuiltinContributionIds(index, input, root, RetryUnboundedRule);
    BuiltinContributionIds(index, input, root, StateGlobalMutableRule);
    IdLengthsOfThree(c1, c2, c3, |ErrorsSwallowed.ID|);
  }

  lemma IdLengthsOfThree(a: seq<Diagnostic>, b: seq<Diagnostic>, c: seq<Diagnostic>, n: nat)
    requires forall x :: x in a || x in b || x in c ==> |x.ruleId| != n
    ensures forall x :: x in a + b + c ==> |x.ruleId| != n
  {
  }

  /** A source that lists `errors.swallowed` never gets a diagnostic whose id matches
      it ignoring case, whatever the parser makes of the source. */
  lemma ListedErrorsSwallowedIsAbsent(input: AnalyzeInput, parsed: Result<Node, string>, parseMS: int, analyzeMS: int)
    requires parsed.Success? ==> WellFormed(input.source, parsed.value)
    requires ListsErrorsSwallowed(input.source)
    ensures forall x :: x in Analysis(NewEngine(), input, parsed, parseMS, analyzeMS).diagnostics ==>
      !EqualFold(x.ruleId, ErrorsSwallowed.ID)
  {
    if AllSpace(input.source) {
      BlankSourceIsNotAnalysed(NewEngine(), input, parsed, parseMS, analyzeMS);
    } else if parsed.Success? {
      SilencedIds(input, parsed.value, parseMS, analyzeMS);
    } else {
      ParseFailureIsReported(NewEngine(), input, parsed.error, parseMS, analyzeMS);
    }
    NoIdFolds(Analysis(NewEngine(), input, parsed, parseMS, analyzeMS).diagnostics, ErrorsSwallowed.ID);
  }

  lemma NoIdFolds(ds: seq<Diagnostic>, id: string)
    requires forall x :: x in ds ==> |x.ruleId| != |id|
    ensures forall x :: x in ds ==> !EqualFold(x.ruleId, id)
  {
    forall x | x in ds
      ensures !EqualFold(x.ruleId, id)
    {
      EqualFoldSameLength(x.ruleId, id);
    }
  }

  /** The engine's own test: the request is valid, and whatever the parser makes of
      the source, no diagnostic of `errors.swallowed` reaches the output. */
  lemma SuppressionScenario(parsed: Result<Node, string>, parseMS: int, analyzeMS: int)
    requires parsed.Success? ==> WellFormed(ScenarioSource, parsed.value)
    ensures ValidateInput(ScenarioInput) == None
    ensures forall x :: x in Analysis(NewEngine(), ScenarioInput, parsed, parseMS, analyzeMS).diagnostics ==>
      !EqualFold(x.ruleId, ErrorsSwallowed.ID)
  {
    ScenarioIsValid();
    ScenarioListsErrorsSwallowed();
    assert ListedId == ErrorsSwallowed.ID;
    ListedErrorsSwallowedIsAbsent(ScenarioInput, parsed, parseMS, analyzeMS);
  }
}
