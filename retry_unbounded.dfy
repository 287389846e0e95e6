/** Rule retry.unbounded: loops that run forever without a backoff or an exit.
    Python flags `while True:` loops; JavaScript and TypeScript flag `while (true)`
    and `for (;;)` loops. A loop escapes the rule when anything inside its body
    sleeps, backs off, delays, or leaves the loop with `break` or `return`. */
module RetryUnbounded {
  import opened Wrappers
  import opened Strings
  import opened Diagnostics
  import opened SyntaxTree
  import opened RuleBase

  const ID := "retry.unbounded"

  const Tags: seq<string> := ["reliability", "retries"]
  const Short := "Retry loop lacks limits/backoff"
  const Long := "Unbounded retries can overload dependencies during outages."

  function Meta(): RuleMeta {
    RuleMeta("warning", Tags, Short, Long)
  }

  predicate Supports(language: string) {
    SupportsScriptLanguages(language)
  }

  /** A lower-cased callee name that sleeps, backs off or delays. */
  predicate NamesBackoff(name: string) {
    Contains(name, "sleep") || Contains(name, "backoff") || Contains(name, "delay") || Contains(name, "settimeout")
  }

  /** A call whose lower-cased, trimmed callee names a backoff. */
  predicate IsBackoffCall(source: string, n: Node)
    requires WellFormed(source, n)
  {
    (n.kind == "call" || n.kind == "call_expression") && NamesBackoff(ToLower(TrimSpace(FieldContent(source, n, "function"))))
  }

  /** A node that bounds the loop around it: a backoff call, a `break` or a `return`. */
  predicate IsBoundingNode(source: string, n: Node)
    requires WellFormed(source, n)
  {
    IsBackoffCall(source, n) || n.kind == "break_statement" || n.kind == "return_statement"
  }

  /** Some node of the subtree at `n`, `n` included, bounds the loop. */
  predicate HasBackoff(source: string, n: Node)
    requires WellFormed(source, n)
  {
    IsBoundingNode(source, n) || BackoffIn(source, n.children)
  }

  predicate BackoffIn(source: string, cs: seq<Node>)
    requires forall i :: 0 <= i < |cs| ==> WellFormed(source, cs[i])
  {
    cs != [] && (BackoffIn(source, cs[..|cs| - 1]) || HasBackoff(source, cs[|cs| - 1]))
  }

  /** The short-circuiting search is an existence test over the whole subtree: a body
      has backoff exactly when some node reached by the walk bounds the loop. */
  lemma {:induction false} BackoffIffBoundingNode(source: string, n: Node)
    requires WellFormed(source, n)
    ensures HasBackoff(source, n) <==> exists m :: m in Preorder(n) && WellFormed(source, m) && IsBoundingNode(source, m)
  {
    BackoffInIffBoundingNode(source, n.children);
    PreorderWellFormed(source, n);
  }

  lemma {:induction false} BackoffInIffBoundingNode(source: string, cs: seq<Node>)
    requires forall i :: 0 <= i < |cs| ==> WellFormed(source, cs[i])
    ensures BackoffIn(source, cs) <==> exists m :: m in PreorderIn(cs) && WellFormed(source, m) && IsBoundingNode(source, m)
  {
    if cs != [] {
      BackoffInIffBoundingNode(source, cs[..|cs| - 1]);
      BackoffIffBoundingNode(source, cs[|cs| - 1]);
    }
  }

  /** The walk of `hasBackoff`, threading the captured `found` flag: once it is set,
      every further call returns at once. */
  method SearchBackoff(source: string, n: Node, found: bool) returns (result: bool)
    requires WellFormed(source, n)
    ensures result == (found || HasBackoff(source, n))
    decreases n
  {
    if found {
      return true;
    }
    if n.kind == "call" || n.kind == "call_expression" {
      var name := ToLower(TrimSpace(FieldContent(source, n, "function")));
      if Contains(name, "sleep") || Contains(name, "backoff") || Contains(name, "delay") || Contains(name, "settimeout") {
        return true;
      }
    }
    if n.kind == "break_statement" || n.kind == "return_statement" {
      return true;
    }
    var cs := n.children;
    result := false;
    for i := 0 to |cs|
      invariant result == BackoffIn(source, cs[..i])
    {
      result := SearchBackoff(source, cs[i], result);
      assert cs[..i + 1][..i] == cs[..i];
    }
    assert cs[..|cs|] == cs;
  }

  /** `isInfiniteLoop`: `while` on a condition reading "true" after lower-casing and
      trimming, or `for` with an absent or blank condition. */
  predicate IsInfiniteLoop(source: string, n: Node)
    requires WellFormed(source, n)
  {
    if n.kind == "while_statement" then TrimSpace(ToLower(FieldContent(source, n, "condition"))) == "true"
    else if n.kind == "for_statement" then
      "condition" !in n.fields || TrimSpace(FieldContent(source, n, "condition")) == ""
    else false
  }

  /** The Python test on a `while` condition and the JavaScript one agree. */
  lemma ConditionTestsAgree(cond: string)
    ensures EqualFold(TrimSpace(cond), "true") <==> TrimSpace(ToLower(cond)) == "true"
  {
    ToLowerOfLower("true");
    EqualFoldTrimmed(cond, "true");
  }

  /** The body of a loop: its `body` field, else its first child of type `fallback`. */
  function LoopBody(n: Node, fallback: string): (r: Option<Node>)
    ensures "body" in n.fields ==> r == Some(n.fields["body"])
  {
    var body := ChildByFieldName(n, "body");
    if body.Some? then body else FirstChildOfType(n, fallback)
  }

  lemma LoopBodyWellFormed(source: string, n: Node, fallback: string)
    requires WellFormed(source, n)
    ensures LoopBody(n, fallback).Some? ==> WellFormed(source, LoopBody(n, fallback).value)
  {
    if "body" !in n.fields {
      FirstChildOfTypeSpec(n, fallback);
    }
  }

  /** A present loop body in which nothing bounds the loop. */
  predicate UnboundedBody(source: string, n: Node, fallback: string)
    requires WellFormed(source, n)
  {
    LoopBodyWellFormed(source, n, fallback);
    var body := LoopBody(n, fallback);
    body.Some? && !HasBackoff(source, body.value)
  }

  /** The loops each dialect reports. */
  predicate Unbounded(d: Dialect, source: string, n: Node)
    requires WellFormed(source, n)
  {
    match d
    case Python =>
      && n.kind == "while_statement"
      && EqualFold(TrimSpace(FieldContent(source, n, "condition")), "true")
      && UnboundedBody(source, n, "block")
    case JavaScript =>
      && (n.kind == "while_statement" || n.kind == "for_statement")
      && IsInfiniteLoop(source, n)
      && UnboundedBody(source, n, "statement_block")
  }

  const PythonMessage := "Retry loop without cap or backoff"
  const PythonExplanation := "Infinite retries can amplify outages; add max attempts and backoff."
  const ScriptMessage := "Potential unbounded retry loop"
  const ScriptExplanation := "Add max attempts or backoff to avoid hammering dependencies during failures."

  /** The diagnostic raised at an offending loop. */
  function Finding(d: Dialect, n: Node): Diagnostic {
    match d
    case Python => Diagnostic(ID, "", PythonMessage, PythonExplanation, RangeFromNode(Some(n)), [], "")
    case JavaScript =>
      Diagnostic(ID, "warning", ScriptMessage, ScriptExplanation, RangeFromNode(Some(n)), Tags, "")
  }

  function Emit(d: Dialect, source: string, n: Node): seq<Diagnostic>
    requires WellFormed(source, n)
  {
    if Unbounded(d, source, n) then [Finding(d, n)] else []
  }

  /** What the walk closure collects below and at `n`, parent before children. */
  function Findings(d: Dialect, source: string, n: Node): seq<Diagnostic>
    requires WellFormed(source, n)
  {
    Emit(d, source, n) + FindingsIn(d, source, n.children)
  }

  function FindingsIn(d: Dialect, source: string, cs: seq<Node>): seq<Diagnostic>
    requires forall i :: 0 <= i < |cs| ==> WellFormed(source, cs[i])
  {
    if cs == [] then [] else FindingsIn(d, source, cs[..|cs| - 1]) + Findings(d, source, cs[|cs| - 1])
  }

  /** Every diagnostic of the walk carries this rule's id, the dialect's severity and
      tags, and the range of an unbounded loop reached by the walk. */
  lemma {:induction false} FindingsShape(d: Dialect, source: string, n: Node)
    requires WellFormed(source, n)
    ensures forall x :: x in Findings(d, source, n) ==>
      && x.ruleId == ID
      && x.severity == (if d == Python then "" else "warning")
      && x.tags == (if d == Python then [] else Tags)
      && exists m :: m in Preorder(n) && WellFormed(source, m) && Unbounded(d, source, m) && x == Finding(d, m)
  {
    FindingsInShape(d, source, n.children);
  }

  lemma {:induction false} FindingsInShape(d: Dialect, source: string, cs: seq<Node>)
    requires forall i :: 0 <= i < |cs| ==> WellFormed(source, cs[i])
    ensures forall x :: x in FindingsIn(d, source, cs) ==>
      && x.ruleId == ID
      && x.severity == (if d == Python then "" else "warning")
      && x.tags == (if d == Python then [] else Tags)
      && exists m :: m in PreorderIn(cs) && WellFormed(source, m) && Unbounded(d, source, m) && x == Finding(d, m)
  {
    if cs != [] {
      FindingsInShape(d, source, cs[..|cs| - 1]);
      FindingsShape(d, source, cs[|cs| - 1]);
    }
  }

  /** A loop is not reported when anything inside its body, at any depth, bounds it;
      in particular a `break` in a nested loop bounds the outer one. */
  lemma BoundedBodyIsSilent(d: Dialect, source: string, n: Node, m: Node)
    requires WellFormed(source, n)
    requires LoopBody(n, if d == Python then "block" else "statement_block").Some?
    requires m in Preorder(LoopBody(n, if d == Python then "block" else "statement_block").value)
    requires WellFormed(source, m) && IsBoundingNode(source, m)
    ensures Emit(d, source, n) == []
  {
    var fallback := if d == Python then "block" else "statement_block";
    LoopBodyWellFormed(source, n, fallback);
    BackoffIffBoundingNode(source, LoopBody(n, fallback).value);
  }

  /** A loop without a body is never reported. */
  lemma BodilessLoopIsSilent(d: Dialect, source: string, n: Node)
    requires WellFormed(source, n)
    requires "body" !in n.fields
    requires forall i :: 0 <= i < |n.children| ==> n.children[i].kind != "block" && n.children[i].kind != "statement_block"
    ensures Emit(d, source, n) == []
  {
    FirstChildOfTypeSpec(n, "block");
    FirstChildOfTypeSpec(n, "statement_block");
  }

  /** Python `for` loops are never reported. */
  lemma PythonForIsSilent(source: string, n: Node)
    requires WellFormed(source, n)
    requires n.kind == "for_statement"
    ensures Emit(Python, source, n) == []
  {
  }

  /** A JavaScript `for (;;)` whose body has no backoff, `break` or `return` is reported. */
  lemma ForeverForIsReported(source: string, n: Node)
    requires WellFormed(source, n)
    requires n.kind == "for_statement" && "condition" !in n.fields && "body" in n.fields
    requires forall m :: m in Preorder(n.fields["body"]) && WellFormed(source, m) ==> !IsBoundingNode(source, m)
    ensures Emit(JavaScript, source, n) == [Finding(JavaScript, n)]
  {
    assert WellFormed(source, n.fields["body"]);
    BackoffIffBoundingNode(source, n.fields["body"]);
  }

  /** What `Run` returns: nothing for languages other than Python, JavaScript and TypeScript. */
  function Detected(ctx: Context): (r: seq<Diagnostic>)
    requires WellFormed(ctx.source, ctx.root)
    ensures DialectOf(ctx.language).None? ==> r == []
    ensures forall x :: x in r ==> x.ruleId == ID
  {
    match DialectOf(ctx.language)
    case None => []
    case Some(d) => FindingsShape(d, ctx.source, ctx.root); Findings(d, ctx.source, ctx.root)
  }

  /** Finds the loop body and searches it for backoff. */
  method CheckBody(source: string, n: Node, fallback: string) returns (flagged: bool)
    requires WellFormed(source, n)
    ensures flagged == UnboundedBody(source, n, fallback)
  {
    var body := ChildByFieldName(n, "body");
    if body.None? {
      body := SearchFirstChildOfType(n, fallback);
    }
    LoopBodyWellFormed(source, n, fallback);
    if body.None? {
      return false;
    }
    var bounded := SearchBackoff(source, body.value, false);
    flagged := !bounded;
  }

  /** Decides whether `n` is an offending loop. */
  method CheckLoop(d: Dialect, source: string, n: Node) returns (flagged: bool)
    requires WellFormed(source, n)
    ensures flagged == Unbounded(d, source, n)
  {
    match d {
      case Python =>
        if n.kind != "while_statement" || !EqualFold(TrimSpace(FieldContent(source, n, "condition")), "true") {
          return false;
        }
        flagged := CheckBody(source, n, "block");
      case JavaScript =>
        if !(n.kind == "while_statement" || n.kind == "for_statement") || !IsInfiniteLoop(source, n) {
          return false;
        }
        flagged := CheckBody(source, n, "statement_block");
    }
  }

  /** One step of the walk closure: appends the finding at `n`, if any, to `acc`. */
  method Visit(d: Dialect, source: string, n: Node, acc: seq<Diagnostic>) returns (diags: seq<Diagnostic>)
    requires WellFormed(source, n)
    ensures diags == acc + Emit(d, source, n)
  {
    var flagged := CheckLoop(d, source, n);
    diags := if flagged then acc + [Finding(d, n)] else acc;
  }

  lemma FindingsInSnoc(d: Dialect, source: string, cs: seq<Node>, i: nat)
    requires i < |cs|
    requires forall j :: 0 <= j < |cs| ==> WellFormed(source, cs[j])
    ensures FindingsIn(d, source, cs[..i + 1]) == FindingsIn(d, source, cs[..i]) + Findings(d, source, cs[i])
  {
    assert cs[..i + 1][..i] == cs[..i];
  }

  /** The walk closure: appends the findings at and below `n` to `acc`. */
  method Walk(d: Dialect, source: string, n: Node, acc: seq<Diagnostic>) returns (diags: seq<Diagnostic>)
    requires WellFormed(source, n)
    ensures diags == acc + Findings(d, source, n)
    decreases n
  {
    diags := Visit(d, source, n, acc);
    ghost var here := diags;
    var cs := n.children;
    for i := 0 to |cs|
      invariant diags == here + FindingsIn(d, source, cs[..i])
    {
      diags := Walk(d, source, cs[i], diags);
      FindingsInSnoc(d, source, cs, i);
      AppendAssoc(here, FindingsIn(d, source, cs[..i]), Findings(d, source, cs[i]));
    }
    assert cs[..|cs|] == cs;
    AppendAssoc(acc, Emit(d, source, n), FindingsIn(d, source, cs));
  }

  method Run(ctx: Context) returns (diags: seq<Diagnostic>)
    requires WellFormed(ctx.source, ctx.root)
    ensures diags == Detected(ctx)
  {
    var dialect := DialectOf(ctx.language);
    if dialect.None? {
      return [];
    }
    diags := Walk(dialect.value, ctx.source, ctx.root, []);
  }
}
