/** Rule errors.swallowed: exception handlers that do nothing. Python flags an
    `except_clause` whose handler block is missing, empty or a lone `pass`;
    JavaScript and TypeScript flag a `catch_clause` whose body is missing or empty. */
module ErrorsSwallowed {
  import opened Wrappers
  import opened Strings
  import opened Diagnostics
  import opened SyntaxTree
  import opened RuleBase

  const ID := "errors.swallowed"

  const Tags: seq<string> := ["reliability", "errors"]
  const Short := "Exceptions caught and ignored"
  const Long := "Empty error handlers swallow failures and hide outages."

  function Meta(): RuleMeta {
    RuleMeta("warning", Tags, Short, Long)
  }

  predicate Supports(language: string) {
    SupportsScriptLanguages(language)
  }

  /** A block that is present and has no named children. */
  predicate IsEmptyBlock(block: Option<Node>) {
    block.Some? && |block.value.children| == 0
  }

  /** A block whose only named child is a `pass_statement`. */
  predicate IsPassOnly(block: Option<Node>) {
    block.Some? && |block.value.children| == 1 && block.value.children[0].kind == "pass_statement"
  }

  /** The handler block of a Python `except_clause`: its first `block` child, else its first `suite` child. */
  function HandlerBlock(n: Node): Option<Node> {
    var block := FirstChildOfType(n, "block");
    if block.Some? then block else FirstChildOfType(n, "suite")
  }

  /** The body of a JavaScript `catch_clause`: its `body` field, else its first `statement_block` child. */
  function CatchBody(n: Node): Option<Node> {
    var body := ChildByFieldName(n, "body");
    if body.Some? then body else FirstChildOfType(n, "statement_block")
  }

  predicate Swallows(d: Dialect, n: Node) {
    match d
    case Python =>
      n.kind == "except_clause" &&
      var block := HandlerBlock(n);
      block.None? || IsEmptyBlock(block) || IsPassOnly(block)
    case JavaScript =>
      n.kind == "catch_clause" &&
      var body := CatchBody(n);
      body.None? || |body.value.children| == 0 || IsEmptyBlock(body)
  }

  const PythonMessage := "Exception handled but nothing done"
  const PythonExplanation := "Swallowing exceptions makes outages harder to detect; log or re-raise instead."
  const ScriptMessage := "Empty catch block swallows errors"
  const ScriptExplanation := "Unhandled errors disappear silently; handle or log the failure path."

  /** The diagnostic raised at an offending handler. */
  function Finding(d: Dialect, n: Node): Diagnostic {
    match d
    case Python => Diagnostic(ID, "", PythonMessage, PythonExplanation, RangeFromNode(Some(n)), [], "")
    case JavaScript =>
      Diagnostic(ID, "", ScriptMessage, ScriptExplanation, RangeFromNode(Some(n)), Tags, "")
  }

  function Emit(d: Dialect, n: Node): seq<Diagnostic> {
    if Swallows(d, n) then [Finding(d, n)] else []
  }

  /** What the walk closure collects below and at `n`, parent before children. */
  function Findings(d: Dialect, n: Node): seq<Diagnostic> {
    Emit(d, n) + FindingsIn(d, n.children)
  }

  function FindingsIn(d: Dialect, cs: seq<Node>): seq<Diagnostic> {
    if cs == [] then [] else FindingsIn(d, cs[..|cs| - 1]) + Findings(d, cs[|cs| - 1])
  }

  /** One diagnostic per offending node of `ns`, in the order of `ns`. */
  function EmitAll(d: Dialect, ns: seq<Node>): seq<Diagnostic> {
    if ns == [] then [] else EmitAll(d, ns[..|ns| - 1]) + Emit(d, ns[|ns| - 1])
  }

  lemma {:induction false} EmitAllAppend(d: Dialect, a: seq<Node>, b: seq<Node>)
    ensures EmitAll(d, a + b) == EmitAll(d, a) + EmitAll(d, b)
  {
    if b != [] {
      assert (a + b)[..|a + b| - 1] == a + b[..|b| - 1];
      EmitAllAppend(d, a, b[..|b| - 1]);
    } else {
      assert a + b == a;
    }
  }

  /** The walk reports exactly the offending nodes of a pre-order traversal, in that
      order, nested handlers included. */
  lemma {:induction false} FindingsArePreorder(d: Dialect, n: Node)
    ensures Findings(d, n) == EmitAll(d, Preorder(n))
  {
    FindingsInArePreorder(d, n.children);
    EmitAllAppend(d, [n], PreorderIn(n.children));
    assert EmitAll(d, [n]) == Emit(d, n) by {
      assert [n][..0] == [];
    }
  }

  lemma {:induction false} FindingsInArePreorder(d: Dialect, cs: seq<Node>)
    ensures FindingsIn(d, cs) == EmitAll(d, PreorderIn(cs))
  {
    if cs != [] {
      FindingsInArePreorder(d, cs[..|cs| - 1]);
      FindingsArePreorder(d, cs[|cs| - 1]);
      EmitAllAppend(d, PreorderIn(cs[..|cs| - 1]), Preorder(cs[|cs| - 1]));
    }
  }

  /** Every reported diagnostic is the finding of some offending node of `ns`. */
  lemma {:induction false} EmitAllAreFindings(d: Dialect, ns: seq<Node>)
    ensures forall x :: x in EmitAll(d, ns) ==> exists m :: m in ns && Swallows(d, m) && x == Finding(d, m)
  {
    if ns != [] {
      var init, last := ns[..|ns| - 1], ns[|ns| - 1];
      EmitAllAreFindings(d, init);
      assert forall m :: m in init ==> m in ns;
    }
  }

  /** Every diagnostic of the walk carries this rule's id, no severity, the dialect's
      tags and the range of an offending handler reached by the walk. */
  lemma FindingsShape(d: Dialect, n: Node)
    ensures forall x :: x in Findings(d, n) ==>
      && x.ruleId == ID
      && x.severity == ""
      && x.tags == (if d == Python then [] else Tags)
      && exists m :: m in Preorder(n) && Swallows(d, m) && x.range == RangeFromNode(Some(m))
  {
    FindingsArePreorder(d, n);
    EmitAllAreFindings(d, Preorder(n));
  }

  /** A handler that does something other than `pass` is never reported. */
  lemma HandledIsNotReported(n: Node)
    requires n.kind == "except_clause"
    requires HandlerBlock(n).Some?
    requires |HandlerBlock(n).value.children| >= 2
          || (|HandlerBlock(n).value.children| == 1 && HandlerBlock(n).value.children[0].kind != "pass_statement")
    ensures Emit(Python, n) == []
  {
  }

  /** What `Run` returns: nothing for languages other than Python, JavaScript and TypeScript. */
  function Detected(ctx: Context): (r: seq<Diagnostic>)
    ensures DialectOf(ctx.language).None? ==> r == []
    ensures forall x :: x in r ==> x.ruleId == ID && x.severity == ""
  {
    match DialectOf(ctx.language)
    case None => []
    case Some(d) => FindingsShape(d, ctx.root); Findings(d, ctx.root)
  }

  /** Decides whether `n` is an offending handler, using the search loops. */
  method CheckHandler(d: Dialect, n: Node) returns (flagged: bool)
    ensures flagged == Swallows(d, n)
  {
    match d
    case Python =>
      if n.kind != "except_clause" { return false; }
      var block := SearchFirstChildOfType(n, "block");
      if block.None? {
        block := SearchFirstChildOfType(n, "suite");
      }
      flagged := block.None? || IsEmptyBlock(block) || IsPassOnly(block);
    case JavaScript =>
      if n.kind != "catch_clause" { return false; }
      var body := ChildByFieldName(n, "body");
      if body.None? {
        body := SearchFirstChildOfType(n, "statement_block");
      }
      flagged := body.None? || |body.value.children| == 0 || IsEmptyBlock(body);
  }

  /** One step of the walk closure: appends the finding at `n`, if any, to `acc`. */
  method Visit(d: Dialect, n: Node, acc: seq<Diagnostic>) returns (diags: seq<Diagnostic>)
    ensures diags == acc + Emit(d, n)
  {
    var flagged := CheckHandler(d, n);
    diags := if flagged then acc + [Finding(d, n)] else acc;
  }

  lemma FindingsInSnoc(d: Dialect, cs: seq<Node>, i: nat)
    requires i < |cs|
    ensures FindingsIn(d, cs[..i + 1]) == FindingsIn(d, cs[..i]) + Findings(d, cs[i])
  {
    assert cs[..i + 1][..i] == cs[..i];
  }

  /** The walk closure: appends the findings at and below `n` to `acc`. */
  method Walk(d: Dialect, n: Node, acc: seq<Diagnostic>) returns (diags: seq<Diagnostic>)
    ensures diags == acc + Findings(d, n)
    decreases n
  {
    diags := Visit(d, n, acc);
    ghost var here := diags;
    var cs := n.children;
    for i := 0 to |cs|
      invariant diags == here + FindingsIn(d, cs[..i])
    {
      diags := Walk(d, cs[i], diags);
      FindingsInSnoc(d, cs, i);
      AppendAssoc(here, FindingsIn(d, cs[..i]), Findings(d, cs[i]));
    }
    assert cs[..|cs|] == cs;
    AppendAssoc(acc, Emit(d, n), FindingsIn(d, cs));
  }

  method Run(ctx: Context) returns (diags: seq<Diagnostic>)
    ensures diags == Detected(ctx)
  {
    var dialect := DialectOf(ctx.language);
    if dialect.None? {
      return [];
    }
    diags := Walk(dialect.value, ctx.root, []);
  }

  /** A node that is not a handler and has no named children yields nothing. */
  lemma LeafFindings(d: Dialect, n: Node)
    requires n.children == [] && n.kind != "except_clause" && n.kind != "catch_clause"
    ensures Findings(d, n) == []
  {
  }

  lemma FindingsInOne(d: Dialect, a: Node)
    ensures FindingsIn(d, [a]) == Findings(d, a)
  {
    assert [a][..0] == [];
  }

  lemma FindingsInPair(d: Dialect, a: Node, b: Node)
    ensures FindingsIn(d, [a, b]) == Findings(d, a) + Findings(d, b)
  {
    assert [a, b][..1] == [a];
    FindingsInOne(d, a);
  }

  lemma DetectedInDialect(language: string, root: Node, source: string, d: Dialect)
    requires DialectOf(language) == Some(d)
    ensures Detected(Context(language, root, source)) == Findings(d, root)
  {
  }

  function Leaf(kind: string, startByte: nat, endByte: nat, startPoint: Point, endPoint: Point): Node {
    Node(kind, [], map[], startByte, endByte, startPoint, endPoint)
  }

  /** `try: risky() except Exception: pass` in Python, as the grammar shapes it. */
  const PythonSource := "\ntry:\n    risky()\nexcept Exception:\n    pass\n"

  const PyCall := Node("call", [Leaf("identifier", 10, 15, Point(2, 4), Point(2, 9)),
                                Leaf("argument_list", 15, 17, Point(2, 9), Point(2, 11))],
                       map[], 10, 17, Point(2, 4), Point(2, 11))
  const PyStatement := Node("expression_statement", [PyCall], map[], 10, 17, Point(2, 4), Point(2, 11))
  const PyTryBody := Node("block", [PyStatement], map[], 10, 17, Point(2, 4), Point(2, 11))
  const PyPass := Leaf("pass_statement", 40, 44, Point(4, 4), Point(4, 8))
  const PyHandlerBlock := Node("block", [PyPass], map[], 40, 44, Point(4, 4), Point(4, 8))
  const PyHandler := Node("except_clause", [Leaf("identifier", 25, 34, Point(3, 7), Point(3, 16)), PyHandlerBlock],
                          map[], 18, 44, Point(3, 0), Point(4, 8))
  const PyTry := Node("try_statement", [PyTryBody, PyHandler], map["body" := PyTryBody], 1, 44, Point(1, 0), Point(4, 8))
  const PythonTree := Node("module", [PyTry], map[], 0, 45, Point(0, 0), Point(5, 0))

  lemma PythonTreeWellFormed()
    ensures WellFormed(PythonSource, PythonTree)
  {
    var src := PythonSource;
    assert |src| == 45;
    assert WellFormed(src, PyCall.children[0]) && WellFormed(src, PyCall.children[1]);
    assert WellFormed(src, PyCall);
    assert WellFormed(src, PyStatement);
    assert WellFormed(src, PyTryBody);
    assert WellFormed(src, PyPass);
    assert WellFormed(src, PyHandlerBlock);
    assert WellFormed(src, PyHandler.children[0]);
    assert WellFormed(src, PyHandler);
    assert WellFormed(src, PyTry);
  }

  lemma PythonTryBodyIsClean()
    ensures Findings(Python, PyTryBody) == []
  {
    LeafFindings(Python, PyCall.children[0]);
    LeafFindings(Python, PyCall.children[1]);
    FindingsInPair(Python, PyCall.children[0], PyCall.children[1]);
    assert Findings(Python, PyCall) == [];
    FindingsInOne(Python, PyCall);
    assert Findings(Python, PyStatement) == [];
    FindingsInOne(Python, PyStatement);
  }

  lemma PythonHandlerIsReported()
    ensures Findings(Python, PyHandler) == [Finding(Python, PyHandler)]
  {
    LeafFindings(Python, PyPass);
    FindingsInOne(Python, PyPass);
    assert Findings(Python, PyHandlerBlock) == [];
    LeafFindings(Python, PyHandler.children[0]);
    FindingsInPair(Python, PyHandler.children[0], PyHandlerBlock);
    assert FirstOfTypeFrom(PyHandler.children, "block", 1) == Some(PyHandlerBlock);
    assert FirstChildOfType(PyHandler, "block") == Some(PyHandlerBlock);
    assert IsPassOnly(Some(PyHandlerBlock));
  }

  /** The Python handler that only passes is reported once, at the handler's span. */
  lemma PythonPassIsReported()
    ensures WellFormed(PythonSource, PythonTree)
    ensures Detected(Context("python", PythonTree, PythonSource)) ==
      [Diagnostic(ID, "", PythonMessage, PythonExplanation, Range(Position(3, 0), Position(4, 8)), [], "")]
  {
    PythonTreeWellFormed();
    PythonTreeFindings();
    PythonDialect();
    DetectedInDialect("python", PythonTree, PythonSource, Python);
    assert Finding(Python, PyHandler).range == Range(Position(3, 0), Position(4, 8));
  }

  lemma PythonTreeFindings()
    ensures Findings(Python, PythonTree) == [Finding(Python, PyHandler)]
  {
    PythonTryBodyIsClean();
    PythonHandlerIsReported();
    FindingsInPair(Python, PyTryBody, PyHandler);
    assert Findings(Python, PyTry) == [Finding(Python, PyHandler)];
    FindingsInOne(Python, PyTry);
  }

  /** `try { risky() } catch (e) {}` in JavaScript. */
  const ScriptSource := "\ntry {\n  risky()\n} catch (e) {}\n"

  const JsCall := Node("call_expression", [Leaf("identifier", 9, 14, Point(2, 2), Point(2, 7)),
                                           Leaf("arguments", 14, 16, Point(2, 7), Point(2, 9))],
                       map[], 9, 16, Point(2, 2), Point(2, 9))
  const JsStatement := Node("expression_statement", [JsCall], map[], 9, 16, Point(2, 2), Point(2, 9))
  const JsTryBody := Node("statement_block", [JsStatement], map[], 5, 18, Point(1, 4), Point(3, 1))
  const JsParam := Leaf("identifier", 26, 27, Point(3, 9), Point(3, 10))
  const JsCatchBody := Leaf("statement_block", 29, 31, Point(3, 12), Point(3, 14))
  const JsHandler := Node("catch_clause", [JsParam, JsCatchBody], map["parameter" := JsParam, "body" := JsCatchBody],
                          19, 31, Point(3, 2), Point(3, 14))
  const JsTry := Node("try_statement", [JsTryBody, JsHandler], map["body" := JsTryBody, "handler" := JsHandler],
                      1, 31, Point(1, 0), Point(3, 14))
  const ScriptTree := Node("program", [JsTry], map[], 0, 32, Point(0, 0), Point(4, 0))

  lemma ScriptTreeWellFormed()
    ensures WellFormed(ScriptSource, ScriptTree)
  {
    var src := ScriptSource;
    assert |src| == 32;
    assert WellFormed(src, JsCall.children[0]) && WellFormed(src, JsCall.children[1]);
    assert WellFormed(src, JsCall);
    assert WellFormed(src, JsStatement);
    assert WellFormed(src, JsTryBody);
    assert WellFormed(src, JsParam) && WellFormed(src, JsCatchBody);
    assert WellFormed(src, JsHandler);
    assert WellFormed(src, JsTry);
  }

  lemma ScriptTryBodyIsClean()
    ensures Findings(JavaScript, JsTryBody) == []
  {
    LeafFindings(JavaScript, JsCall.children[0]);
    LeafFindings(JavaScript, JsCall.children[1]);
    FindingsInPair(JavaScript, JsCall.children[0], JsCall.children[1]);
    assert Findings(JavaScript, JsCall) == [];
    FindingsInOne(JavaScript, JsCall);
    assert Findings(JavaScript, JsStatement) == [];
    FindingsInOne(JavaScript, JsStatement);
  }

  lemma ScriptHandlerIsReported()
    ensures Findings(JavaScript, JsHandler) == [Finding(JavaScript, JsHandler)]
  {
    LeafFindings(JavaScript, JsParam);
    LeafFindings(JavaScript, JsCatchBody);
    FindingsInPair(JavaScript, JsParam, JsCatchBody);
  }

  /** The empty JavaScript catch block is reported once, with the rule's tags. */
  lemma ScriptEmptyCatchIsReported()
    ensures WellFormed(ScriptSource, ScriptTree)
    ensures Detected(Context("javascript", ScriptTree, ScriptSource)) ==
      [Diagnostic(ID, "", ScriptMessage, ScriptExplanation, Range(Position(3, 2), Position(3, 14)),
                  Tags, "")]
  {
    ScriptTreeWellFormed();
    ScriptTreeFindings();
    JavaScriptDialect();
    DetectedInDialect("javascript", ScriptTree, ScriptSource, JavaScript);
    assert Finding(JavaScript, JsHandler).range == Range(Position(3, 2), Position(3, 14));
  }

  lemma ScriptTreeFindings()
    ensures Findings(JavaScript, ScriptTree) == [Finding(JavaScript, JsHandler)]
  {
    ScriptTryBodyIsClean();
    ScriptHandlerIsReported();
    FindingsInPair(JavaScript, JsTryBody, JsHandler);
    assert Findings(JavaScript, JsTry) == [Finding(JavaScript, JsHandler)];
    FindingsInOne(JavaScript, JsTry);
  }
}
