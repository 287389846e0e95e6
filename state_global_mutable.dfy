/** Rule state.global_mutable: module-level mutable collections. Only the root's
    own statements are examined. Python flags a top-level expression statement that
    assigns a list or dict display; JavaScript and TypeScript flag each declarator of
    a top-level `const`/`let`/`var` declaration initialised with an object or array. */
module StateGlobalMutable {
  import opened Wrappers
  import opened Strings
  import opened Diagnostics
  import opened SyntaxTree
  import opened RuleBase

  const ID := "state.global_mutable"

  const Tags: seq<string> := ["state"]
  const Short := "Global mutable state"
  const Long := "Global mutable state can lead to hidden coupling and race conditions."

  function Meta(): RuleMeta {
    RuleMeta("info", Tags, Short, Long)
  }

  predicate Supports(language: string) {
    SupportsScriptLanguages(language)
  }

  /** `isMutableLiteral`: an object, array, dict or list node, or any node whose
      trimmed text opens a brace or a bracket. */
  predicate IsMutableLiteral(source: string, n: Node)
    requires WellFormed(source, n)
  {
    || n.kind in {"object", "array", "dictionary", "list"}
    || HasPrefix(TrimSpace(Content(source, Some(n))), "{")
    || HasPrefix(TrimSpace(Content(source, Some(n))), "[")
  }

  /** The text test on a Python statement: an `=` together with a bracket or a brace. */
  predicate AssignsCollection(text: string) {
    Contains(text, "=") && (Contains(text, "[") || Contains(text, "{"))
  }

  /** A top-level Python statement the rule reports. */
  predicate FlagsStatement(source: string, stmt: Node)
    requires WellFormed(source, stmt)
  {
    stmt.kind == "expression_statement" && AssignsCollection(TrimSpace(Content(source, Some(stmt))))
  }

  /** A declarator the rule reports: one with a `value` field holding a mutable literal. */
  predicate FlagsDeclarator(source: string, decl: Node)
    requires WellFormed(source, decl)
  {
    "value" in decl.fields && (assert WellFormed(source, decl.fields["value"]); IsMutableLiteral(source, decl.fields["value"]))
  }

  /** The top-level statement kinds whose declarators are examined. */
  predicate IsDeclaration(stmt: Node) {
    stmt.kind == "lexical_declaration" || stmt.kind == "variable_declaration"
  }

  const PythonMessage := "Module-level mutable state"
  const PythonExplanation := "Global mutable collections can be shared implicitly across imports. Consider scoping within functions or using immutables."
  const ScriptMessage := "Module-level mutable state"
  const ScriptExplanation := "Globals that hold mutable objects are easily shared across imports; prefer local scopes or factories."

  function PythonFinding(stmt: Node): Diagnostic {
    Diagnostic(ID, "info", PythonMessage, PythonExplanation, RangeFromNode(Some(stmt)), [], "")
  }

  function ScriptFinding(decl: Node): Diagnostic {
    Diagnostic(ID, "info", ScriptMessage, ScriptExplanation, RangeFromNode(Some(decl)), Tags, "")
  }

  predicate AllWellFormed(source: string, ns: seq<Node>) {
    forall i :: 0 <= i < |ns| ==> WellFormed(source, ns[i])
  }

  /** The diagnostics of the Python loop over the statements `stmts`, in order. */
  function PythonFindings(source: string, stmts: seq<Node>): seq<Diagnostic>
    requires AllWellFormed(source, stmts)
  {
    if stmts == [] then []
    else
      var last := stmts[|stmts| - 1];
      PythonFindings(source, stmts[..|stmts| - 1]) + (if FlagsStatement(source, last) then [PythonFinding(last)] else [])
  }

  /** The diagnostics of the inner JavaScript loop over one declaration's declarators. */
  function DeclaratorFindings(source: string, decls: seq<Node>): seq<Diagnostic>
    requires AllWellFormed(source, decls)
  {
    if decls == [] then []
    else
      var last := decls[|decls| - 1];
      DeclaratorFindings(source, decls[..|decls| - 1]) + (if FlagsDeclarator(source, last) then [ScriptFinding(last)] else [])
  }

  /** The diagnostics of the outer JavaScript loop over the statements `stmts`. */
  function ScriptFindings(source: string, stmts: seq<Node>): seq<Diagnostic>
    requires AllWellFormed(source, stmts)
  {
    if stmts == [] then []
    else
      var last := stmts[|stmts| - 1];
      ScriptFindings(source, stmts[..|stmts| - 1]) + (if IsDeclaration(last) then DeclaratorFindings(source, last.children) else [])
  }

  /** At most one diagnostic per top-level statement. */
  lemma {:induction false} PythonFindingsBound(source: string, stmts: seq<Node>)
    requires AllWellFormed(source, stmts)
    ensures |PythonFindings(source, stmts)| <= |stmts|
  {
    if stmts != [] {
      PythonFindingsBound(source, stmts[..|stmts| - 1]);
    }
  }

  /** The findings of the statements whose flag is set, in order: the Python loop
      with the per-statement test already decided. */
  function Selected(stmts: seq<Node>, flags: seq<bool>): seq<Diagnostic>
    requires |flags| == |stmts|
  {
    if stmts == [] then []
    else
      var k := |stmts| - 1;
      Selected(stmts[..k], flags[..k]) + (if flags[k] then [PythonFinding(stmts[k])] else [])
  }

  lemma {:induction false} SelectedMembership(stmts: seq<Node>, flags: seq<bool>, x: Diagnostic)
    requires |flags| == |stmts|
    ensures x in Selected(stmts, flags) <==>
      exists i :: 0 <= i < |stmts| && flags[i] && x == PythonFinding(stmts[i])
  {
    if stmts != [] {
      var k := |stmts| - 1;
      SelectedMembership(stmts[..k], flags[..k], x);
      assert forall i :: 0 <= i < k ==> stmts[..k][i] == stmts[i] && flags[..k][i] == flags[i];
    }
  }

  lemma {:induction false} PythonFindingsSelected(source: string, stmts: seq<Node>, flags: seq<bool>)
    requires AllWellFormed(source, stmts)
    requires |flags| == |stmts|
    requires forall i :: 0 <= i < |stmts| ==> flags[i] == FlagsStatement(source, stmts[i])
    ensures PythonFindings(source, stmts) == Selected(stmts, flags)
  {
    if stmts != [] {
      var k := |stmts| - 1;
      PythonFindingsSelected(source, stmts[..k], flags[..k]);
    }
  }

  /** The Python diagnostics are exactly the findings of the flagged top-level statements. */
  lemma PythonFindingsExactly(source: string, stmts: seq<Node>, x: Diagnostic)
    requires AllWellFormed(source, stmts)
    ensures x in PythonFindings(source, stmts) <==>
      exists i :: 0 <= i < |stmts| && FlagsStatement(source, stmts[i]) && x == PythonFinding(stmts[i])
  {
    var flags := seq(|stmts|, i requires 0 <= i < |stmts| => FlagsStatement(source, stmts[i]));
    PythonFindingsSelected(source, stmts, flags);
    SelectedMembership(stmts, flags, x);
  }

  /** The declarator diagnostics are exactly the findings of the flagged declarators. */
  lemma {:induction false} DeclaratorFindingsExactly(source: string, decls: seq<Node>, x: Diagnostic)
    requires AllWellFormed(source, decls)
    ensures x in DeclaratorFindings(source, decls) <==>
      exists j :: 0 <= j < |decls| && FlagsDeclarator(source, decls[j]) && x == ScriptFinding(decls[j])
  {
    if decls != [] {
      var k := |decls| - 1;
      DeclaratorFindingsExactly(source, decls[..k], x);
      assert forall j :: 0 <= j < k ==> decls[..k][j] == decls[j];
    }
  }

  /** The JavaScript diagnostics are those of the declarations among the top-level
      statements, taken statement by statement. */
  lemma {:induction false} ScriptFindingsByStatement(source: string, stmts: seq<Node>, x: Diagnostic)
    requires AllWellFormed(source, stmts)
    ensures x in ScriptFindings(source, stmts) <==>
      exists i :: 0 <= i < |stmts| && IsDeclaration(stmts[i]) && x in DeclaratorFindings(source, stmts[i].children)
  {
    if stmts != [] {
      var k := |stmts| - 1;
      ScriptFindingsByStatement(source, stmts[..k], x);
      assert forall i :: 0 <= i < k ==> stmts[..k][i] == stmts[i];
    }
  }

  /** The JavaScript diagnostics are exactly the findings of the flagged declarators of
      top-level declarations; nothing nested deeper is examined. */
  lemma ScriptFindingsExactly(source: string, stmts: seq<Node>, x: Diagnostic)
    requires AllWellFormed(source, stmts)
    ensures x in ScriptFindings(source, stmts) <==>
      exists i, j :: 0 <= i < |stmts| && IsDeclaration(stmts[i]) && 0 <= j < |stmts[i].children|
                     && FlagsDeclarator(source, stmts[i].children[j]) && x == ScriptFinding(stmts[i].children[j])
  {
    ScriptFindingsByStatement(source, stmts, x);
    if x in ScriptFindings(source, stmts) {
      var i :| 0 <= i < |stmts| && IsDeclaration(stmts[i]) && x in DeclaratorFindings(source, stmts[i].children);
      DeclaratorFindingsExactly(source, stmts[i].children, x);
    }
    if exists i, j :: 0 <= i < |stmts| && IsDeclaration(stmts[i]) && 0 <= j < |stmts[i].children|
                      && FlagsDeclarator(source, stmts[i].children[j]) && x == ScriptFinding(stmts[i].children[j]) {
      var i, j :| 0 <= i < |stmts| && IsDeclaration(stmts[i]) && 0 <= j < |stmts[i].children|
                  && FlagsDeclarator(source, stmts[i].children[j]) && x == ScriptFinding(stmts[i].children[j]);
      DeclaratorFindingsExactly(source, stmts[i].children, x);
    }
  }

  /** A declarator without an initialiser is never reported. */
  lemma UninitialisedIsSilent(source: string, decl: Node)
    requires WellFormed(source, decl)
    requires "value" !in decl.fields
    ensures DeclaratorFindings(source, [decl]) == []
  {
    assert [decl][..0] == [];
  }

  /** An object or array literal is mutable whatever its text. */
  lemma LiteralKindsAreMutable(source: string, n: Node)
    requires WellFormed(source, n)
    requires n.kind == "object" || n.kind == "array" || n.kind == "dictionary" || n.kind == "list"
    ensures IsMutableLiteral(source, n)
  {
  }

  /** What `Run` returns: nothing for languages other than Python, JavaScript and TypeScript. */
  function Detected(ctx: Context): (r: seq<Diagnostic>)
    requires WellFormed(ctx.source, ctx.root)
    ensures DialectOf(ctx.language).None? ==> r == []
    ensures DialectOf(ctx.language) == Some(Python) ==> |r| <= |ctx.root.children|
  {
    match DialectOf(ctx.language)
    case None => []
    case Some(Python) =>
      PythonFindingsBound(ctx.source, ctx.root.children);
      PythonFindings(ctx.source, ctx.root.children)
    case Some(JavaScript) => ScriptFindings(ctx.source, ctx.root.children)
  }

  /** Every diagnostic carries the rule's id and severity "info"; the Python ones have
      no tags and the JavaScript ones the tag "state". */
  lemma DetectedShape(ctx: Context)
    requires WellFormed(ctx.source, ctx.root)
    ensures forall x :: x in Detected(ctx) ==>
      && x.ruleId == ID
      && x.severity == "info"
      && x.tags == (if DialectOf(ctx.language) == Some(Python) then [] else Tags)
  {
    forall x | x in Detected(ctx)
      ensures x.ruleId == ID && x.severity == "info"
      ensures x.tags == (if DialectOf(ctx.language) == Some(Python) then [] else Tags)
    {
      match DialectOf(ctx.language) {
        case Some(Python) => PythonFindingsExactly(ctx.source, ctx.root.children, x);
        case Some(JavaScript) => ScriptFindingsExactly(ctx.source, ctx.root.children, x);
      }
    }
  }

  /** `runPython`: one pass over the root's statements. */
  method RunPython(source: string, root: Node) returns (diags: seq<Diagnostic>)
    requires WellFormed(source, root)
    ensures diags == PythonFindings(source, root.children)
  {
    diags := [];
    var stmts := root.children;
    for i := 0 to |stmts|
      invariant diags == PythonFindings(source, stmts[..i])
    {
      var stmt := stmts[i];
      if stmt.kind == "expression_statement" {
        var text := TrimSpace(Content(source, Some(stmt)));
        if Contains(text, "=") && (Contains(text, "[") || Contains(text, "{")) {
          diags := diags + [PythonFinding(stmt)];
        }
      }
      assert stmts[..i + 1][..i] == stmts[..i];
    }
    assert stmts[..|stmts|] == stmts;
  }

  /** The inner loop of `runJS`, over one declaration's declarators. */
  method CollectDeclarators(source: string, stmt: Node, acc: seq<Diagnostic>) returns (diags: seq<Diagnostic>)
    requires WellFormed(source, stmt)
    ensures diags == acc + DeclaratorFindings(source, stmt.children)
  {
    diags := acc;
    var decls := stmt.children;
    for j := 0 to |decls|
      invariant diags == acc + DeclaratorFindings(source, decls[..j])
    {
      var decl := decls[j];
      var init := ChildByFieldName(decl, "value");
      if init.Some? && IsMutableLiteral(source, init.value) {
        diags := diags + [ScriptFinding(decl)];
      }
      assert decls[..j + 1][..j] == decls[..j];
    }
    assert decls[..|decls|] == decls;
  }

  /** `runJS`: the outer loop over the root's statements. */
  method RunJS(source: string, root: Node) returns (diags: seq<Diagnostic>)
    requires WellFormed(source, root)
    ensures diags == ScriptFindings(source, root.children)
  {
    diags := [];
    var stmts := root.children;
    for i := 0 to |stmts|
      invariant diags == ScriptFindings(source, stmts[..i])
    {
      var stmt := stmts[i];
      if stmt.kind == "lexical_declaration" || stmt.kind == "variable_declaration" {
        diags := CollectDeclarators(source, stmt, diags);
      }
      assert stmts[..i + 1][..i] == stmts[..i];
    }
    assert stmts[..|stmts|] == stmts;
  }

  method Run(ctx: Context) returns (diags: seq<Diagnostic>)
    requires WellFormed(ctx.source, ctx.root)
    ensures diags == Detected(ctx)
  {
    var dialect := DialectOf(ctx.language);
    match dialect {
      case None => diags := [];
      case Some(Python) => diags := RunPython(ctx.source, ctx.root);
      case Some(JavaScript) => diags := RunJS(ctx.source, ctx.root);
    }
  }
}
