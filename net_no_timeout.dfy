/** Rule net.no_timeout: network calls made without a timeout. Python flags
    `requests.*` and `httpx.*` calls without a `timeout` keyword argument;
    JavaScript and TypeScript flag `fetch` calls without an abort signal or timeout
    and `axios*` calls whose arguments never mention a timeout. */
module NetNoTimeout {
  import opened Wrappers
  import opened Strings
  import opened Diagnostics
  import opened SyntaxTree
  import opened RuleBase

  const ID := "net.no_timeout"

  const Tags: seq<string> := ["reliability", "network"]
  const Short := "Network call without timeout"
  const Long := "Network calls without timeouts can hang and block resources during outages."

  function Meta(): RuleMeta {
    RuleMeta("warning", Tags, Short, Long)
  }

  predicate Supports(language: string) {
    SupportsScriptLanguages(language)
  }

  /** The module prefixes of the Python HTTP clients the rule knows. */
  const RequestsPrefixes: seq<string> := ["requests.", "httpx."]

  /** `name` starts with one of `prefixes`. */
  predicate HasAnyPrefix(name: string, prefixes: seq<string>) {
    exists i :: 0 <= i < |prefixes| && HasPrefix(name, prefixes[i])
  }

  predicate IsRequestsFunction(name: string) {
    HasAnyPrefix(name, RequestsPrefixes)
  }

  /** A callee names a Python HTTP client function exactly when it starts with
      "requests." or "httpx.". */
  lemma RequestsFunctionIff(name: string)
    ensures IsRequestsFunction(name) <==> HasPrefix(name, "requests.") || HasPrefix(name, "httpx.")
  {
    if HasPrefix(name, "httpx.") {
      assert HasPrefix(name, RequestsPrefixes[1]);
    }
    if HasPrefix(name, "requests.") {
      assert HasPrefix(name, RequestsPrefixes[0]);
    }
  }

  /** The loop of `isRequestsFunction`, returning at the first matching prefix. */
  method SearchPrefixes(name: string, prefixes: seq<string>) returns (found: bool)
    ensures found == HasAnyPrefix(name, prefixes)
  {
    var i := 0;
    while i < |prefixes|
      invariant 0 <= i <= |prefixes|
      invariant forall j :: 0 <= j < i ==> !HasPrefix(name, prefixes[j])
    {
      if |prefixes[i]| <= |name| && name[..|prefixes[i]|] == prefixes[i] {
        return true;
      }
      i := i + 1;
    }
    return false;
  }

  /** The trimmed text of a call's `function` field; blank when the field is absent. */
  function CalleeName(source: string, call: Node): string
    requires WellFormed(source, call)
  {
    TrimSpace(FieldContent(source, call, "function"))
  }

  /** The argument nodes of a call: the named children of its `arguments` field. */
  function Arguments(call: Node): seq<Node> {
    var args := ChildByFieldName(call, "arguments");
    if args.Some? then args.value.children else []
  }

  lemma ArgumentsWellFormed(source: string, call: Node)
    requires WellFormed(source, call)
    ensures forall i :: 0 <= i < |Arguments(call)| ==> WellFormed(source, Arguments(call)[i])
  {
    if "arguments" in call.fields {
      assert WellFormed(source, call.fields["arguments"]);
    }
  }

  /** `arg` is a keyword argument called `name`: its `name` field reads `name`, or
      failing that its whole text starts with `name`. */
  predicate IsKeywordArgument(source: string, arg: Node, name: string)
    requires WellFormed(source, arg)
  {
    && arg.kind == "keyword_argument"
    && (("name" in arg.fields && TrimSpace(FieldContent(source, arg, "name")) == name)
        || HasPrefix(TrimSpace(Content(source, Some(arg))), name))
  }

  predicate HasKeywordArgument(source: string, call: Node, name: string)
    requires WellFormed(source, call)
  {
    ArgumentsWellFormed(source, call);
    var args := Arguments(call);
    exists i :: 0 <= i < |args| && IsKeywordArgument(source, args[i], name)
  }

  /** The text of an argument that shows the fetch is bounded. */
  predicate MentionsTimeout(text: string) {
    Contains(text, "timeout") || Contains(text, "AbortController") || Contains(text, "signal")
  }

  /** A fetch is bounded when it has an options argument (two or more arguments in
      all) and some trimmed argument mentions a timeout, an AbortController or a signal. */
  predicate HasFetchTimeout(source: string, call: Node)
    requires WellFormed(source, call)
  {
    ArgumentsWellFormed(source, call);
    var args := Arguments(call);
    |args| >= 2 && exists i :: 0 <= i < |args| && MentionsTimeout(TrimSpace(Content(source, Some(args[i]))))
  }

  /** An argument's text contains `needle`, ignoring case. */
  predicate Mentions(source: string, arg: Node, needle: string)
    requires WellFormed(source, arg)
  {
    Contains(ToLower(Content(source, Some(arg))), ToLower(needle))
  }

  /** Some argument mentions `needle`. */
  predicate ArgumentContains(source: string, call: Node, needle: string)
    requires WellFormed(source, call)
  {
    ArgumentsWellFormed(source, call);
    var args := Arguments(call);
    exists i :: 0 <= i < |args| && Mentions(source, args[i], needle)
  }

  /** The loop of `hasKeywordArgument`, returning at the first matching keyword argument. */
  method SearchKeywordArgument(source: string, call: Node, name: string) returns (found: bool)
    requires WellFormed(source, call)
    ensures found == HasKeywordArgument(source, call, name)
  {
    var args := ChildByFieldName(call, "arguments");
    if args.None? {
      return false;
    }
    ArgumentsWellFormed(source, call);
    var cs := Arguments(call);
    var i := 0;
    while i < |cs|
      invariant 0 <= i <= |cs|
      invariant forall j :: 0 <= j < i ==> !IsKeywordArgument(source, cs[j], name)
    {
      var arg := cs[i];
      if arg.kind == "keyword_argument" {
        var id := ChildByFieldName(arg, "name");
        if id.Some? && TrimSpace(FieldContent(source, arg, "name")) == name {
          return true;
        }
        if HasPrefix(TrimSpace(Content(source, Some(arg))), name) {
          return true;
        }
      }
      i := i + 1;
    }
    return false;
  }

  /** The loop of `hasFetchTimeout`. */
  method SearchFetchTimeout(source: string, call: Node) returns (found: bool)
    requires WellFormed(source, call)
    ensures found == HasFetchTimeout(source, call)
  {
    var args := ChildByFieldName(call, "arguments");
    if args.None? {
      return false;
    }
    ArgumentsWellFormed(source, call);
    var cs := Arguments(call);
    if |cs| < 2 {
      return false;
    }
    var i := 0;
    while i < |cs|
      invariant 0 <= i <= |cs|
      invariant forall j :: 0 <= j < i ==> !MentionsTimeout(TrimSpace(Content(source, Some(cs[j]))))
    {
      var text := TrimSpace(Content(source, Some(cs[i])));
      if MentionsTimeout(text) {
        return true;
      }
      i := i + 1;
    }
    return false;
  }

  /** The loop of `argumentContains`. */
  method SearchArgumentContains(source: string, call: Node, needle: string) returns (found: bool)
    requires WellFormed(source, call)
    ensures found == ArgumentContains(source, call, needle)
  {
    var args := ChildByFieldName(call, "arguments");
    if args.None? {
      return false;
    }
    ArgumentsWellFormed(source, call);
    found := AnyMentions(source, Arguments(call), needle);
  }

  /** The scan over the argument nodes, stopping at the first one that mentions `needle`. */
  method AnyMentions(source: string, cs: seq<Node>, needle: string) returns (found: bool)
    requires forall i :: 0 <= i < |cs| ==> WellFormed(source, cs[i])
    ensures found <==> exists i :: 0 <= i < |cs| && Mentions(source, cs[i], needle)
  {
    var i := 0;
    while i < |cs|
      invariant 0 <= i <= |cs|
      invariant forall j :: 0 <= j < i ==> !Mentions(source, cs[j], needle)
    {
      if Mentions(source, cs[i], needle) {
        return true;
      }
      i := i + 1;
    }
    return false;
  }

  /** A Python `requests`/`httpx` call without a timeout keyword. */
  predicate RequestsUnguarded(source: string, n: Node)
    requires WellFormed(source, n)
  {
    && n.kind == "call"
    && ChildByFieldName(n, "function").Some?
    && IsRequestsFunction(CalleeName(source, n))
    && !HasKeywordArgument(source, n, "timeout")
  }

  /** A JavaScript call to `fetch` without an abort signal or timeout. */
  predicate FetchUnguarded(source: string, n: Node)
    requires WellFormed(source, n)
  {
    n.kind == "call_expression" && CalleeName(source, n) == "fetch" && !HasFetchTimeout(source, n)
  }

  /** A JavaScript call to `axios…` whose arguments never mention a timeout. */
  predicate AxiosUnguarded(source: string, n: Node)
    requires WellFormed(source, n)
  {
    n.kind == "call_expression" && HasPrefix(CalleeName(source, n), "axios") && !ArgumentContains(source, n, "timeout")
  }

  const RequestsMessage := "Network call without timeout"
  const RequestsExplanation := "HTTP calls should specify a timeout to avoid hanging during partial outages."
  const FetchMessage := "fetch call without AbortController/timeout"
  const FetchExplanation := "Provide an AbortController or timeout so fetch calls do not hang indefinitely."
  const AxiosMessage := "axios call without timeout option"
  const AxiosExplanation := "Set axios timeouts to avoid hanging requests during outages."

  function RequestsFinding(n: Node): Diagnostic {
    Diagnostic(ID, "", RequestsMessage, RequestsExplanation, RangeFromNode(Some(n)), [], "")
  }

  function FetchFinding(n: Node): Diagnostic {
    Diagnostic(ID, "info", FetchMessage, FetchExplanation, RangeFromNode(Some(n)), Tags, "")
  }

  function AxiosFinding(n: Node): Diagnostic {
    Diagnostic(ID, "info", AxiosMessage, AxiosExplanation, RangeFromNode(Some(n)), Tags, "")
  }

  /** What the walk closure appends at `n`: the fetch finding before the axios one. */
  function Emit(d: Dialect, source: string, n: Node): seq<Diagnostic>
    requires WellFormed(source, n)
  {
    match d
    case Python => if RequestsUnguarded(source, n) then [RequestsFinding(n)] else []
    case JavaScript =>
      (if FetchUnguarded(source, n) then [FetchFinding(n)] else [])
      + (if AxiosUnguarded(source, n) then [AxiosFinding(n)] else [])
  }

  /** A call is reported at most once, because no callee is both exactly "fetch" and
      prefixed by "axios"; it is reported exactly when it is unguarded. */
  lemma OneFindingPerCall(d: Dialect, source: string, n: Node)
    requires WellFormed(source, n)
    ensures |Emit(d, source, n)| <= 1
    ensures |Emit(d, source, n)| == 1 <==>
      (if d == Python then RequestsUnguarded(source, n) else FetchUnguarded(source, n) || AxiosUnguarded(source, n))
  {
    if d == JavaScript && FetchUnguarded(source, n) {
      assert CalleeName(source, n)[..5] == "fetch";
    }
  }

  /** What the walk closure collects below and at `n`, parent before children. */
  function Findings(d: Dialect, source: string, n: Node): seq<Diagnostic>
    requires WellFormed(source, n)
  {
    Emit(d, source, n) + FindingsIn(d, source, n.children)
  }

  function FindingsIn(d: Dialect, source: string, cs: seq<Node>): seq<Diagnostic>
    requires forall i :: 0 <= i < |cs| ==> WellFormed(source, cs[i])
  {
    if cs == [] then [] else FindingsIn(d, source, cs[..|cs| - 1]) + Findings(d, source, cs[|cs| - 1])
  }

  /** Every diagnostic of the walk carries this rule's id, the dialect's severity and
      tags, and is one a well-formed node of the walk emits. */
  lemma {:induction false} FindingsShape(d: Dialect, source: string, n: Node)
    requires WellFormed(source, n)
    ensures forall x :: x in Findings(d, source, n) ==>
      && x.ruleId == ID
      && x.severity == (if d == Python then "" else "info")
      && x.tags == (if d == Python then [] else Tags)
      && exists m :: m in Preorder(n) && WellFormed(source, m) && x in Emit(d, source, m)
  {
    FindingsInShape(d, source, n.children);
  }

  lemma {:induction false} FindingsInShape(d: Dialect, source: string, cs: seq<Node>)
    requires forall i :: 0 <= i < |cs| ==> WellFormed(source, cs[i])
    ensures forall x :: x in FindingsIn(d, source, cs) ==>
      && x.ruleId == ID
      && x.severity == (if d == Python then "" else "info")
      && x.tags == (if d == Python then [] else Tags)
      && exists m :: m in PreorderIn(cs) && WellFormed(source, m) && x in Emit(d, source, m)
  {
    if cs != [] {
      FindingsInShape(d, source, cs[..|cs| - 1]);
      FindingsShape(d, source, cs[|cs| - 1]);
    }
  }

  /** A Python call passing `timeout=` is never reported, nor is a call whose callee
      is not a `requests`/`httpx` function. */
  lemma TimeoutKeywordSilences(source: string, n: Node)
    requires WellFormed(source, n)
    ensures HasKeywordArgument(source, n, "timeout") ==> Emit(Python, source, n) == []
    ensures !IsRequestsFunction(CalleeName(source, n)) ==> Emit(Python, source, n) == []
  {
  }

  /** A fetch with fewer than two arguments is always reported. */
  lemma SingleArgumentFetchIsReported(source: string, n: Node)
    requires WellFormed(source, n)
    requires n.kind == "call_expression" && CalleeName(source, n) == "fetch" && |Arguments(n)| < 2
    ensures Emit(JavaScript, source, n) == [FetchFinding(n)]
  {
    assert !HasPrefix(CalleeName(source, n), "axios") by {
      assert CalleeName(source, n)[..5] == "fetch";
    }
  }

  /** What `Run` returns: nothing for languages other than Python, JavaScript and TypeScript. */
  function Detected(ctx: Context): (r: seq<Diagnostic>)
    requires WellFormed(ctx.source, ctx.root)
    ensures DialectOf(ctx.language).None? ==> r == []
    ensures forall x :: x in r ==> x.ruleId == ID
  {
    match DialectOf(ctx.language)
    case None => []
    case Some(d) => FindingsShape(d, ctx.source, ctx.root); Findings(d, ctx.source, ctx.root)
  }

  /** The Python test of the walk closure, using the search loops. */
  method CheckRequestsCall(source: string, n: Node) returns (flagged: bool)
    requires WellFormed(source, n)
    ensures flagged == RequestsUnguarded(source, n)
  {
    if n.kind != "call" {
      return false;
    }
    var fn := ChildByFieldName(n, "function");
    if fn.None? {
      return false;
    }
    var name := TrimSpace(FieldContent(source, n, "function"));
    var known := SearchPrefixes(name, RequestsPrefixes);
    if !known {
      return false;
    }
    var timed := SearchKeywordArgument(source, n, "timeout");
    flagged := !timed;
  }

  /** The fetch test of the JavaScript walk closure. */
  method CheckFetchCall(source: string, n: Node) returns (flagged: bool)
    requires WellFormed(source, n)
    ensures flagged == FetchUnguarded(source, n)
  {
    if n.kind != "call_expression" || CalleeName(source, n) != "fetch" {
      return false;
    }
    var timed := SearchFetchTimeout(source, n);
    flagged := !timed;
  }

  /** The axios test of the JavaScript walk closure. */
  method CheckAxiosCall(source: string, n: Node) returns (flagged: bool)
    requires WellFormed(source, n)
    ensures flagged == AxiosUnguarded(source, n)
  {
    if n.kind != "call_expression" || !HasPrefix(CalleeName(source, n), "axios") {
      return false;
    }
    var timed := SearchArgumentContains(source, n, "timeout");
    flagged := !timed;
  }

  /** One step of the walk closure: appends the findings at `n`, if any, to `acc`. */
  method Visit(d: Dialect, source: string, n: Node, acc: seq<Diagnostic>) returns (diags: seq<Diagnostic>)
    requires WellFormed(source, n)
    ensures diags == acc + Emit(d, source, n)
  {
    match d
    case Python =>
      var flagged := CheckRequestsCall(source, n);
      diags := if flagged then acc + [RequestsFinding(n)] else acc;
    case JavaScript =>
      var fetchFlagged := CheckFetchCall(source, n);
      var axiosFlagged := CheckAxiosCall(source, n);
      diags := acc + (if fetchFlagged then [FetchFinding(n)] else [])
                   + (if axiosFlagged then [AxiosFinding(n)] else []);
  }

  lemma FindingsInSnoc(d: Dialect, source: string, cs: seq<Node>, i: nat)
    requires i < |cs|
    requires forall j :: 0 <= j < |cs| ==> WellFormed(source, cs[j])
    ensures FindingsIn(d, source, cs[..i + 1]) == FindingsIn(d, source, cs[..i]) + Findings(d, source, cs[i])
  {
    assert cs[..i + 1][..i] == cs[..i];
  }

  /** The walk closure: appends the findings at and below `n` to `acc`. */
  method Walk(d: Dialect, source: string, n: Node, acc: seq<Diagnostic>) returns (diags: seq<Diagnostic>)
    requires WellFormed(source, n)
    ensures diags == acc + Findings(d, source, n)
    decreases n
  {
    diags := Visit(d, source, n, acc);
    ghost var here := diags;
    var cs := n.children;
    for i := 0 to |cs|
      invariant diags == here + FindingsIn(d, source, cs[..i])
    {
      diags := Walk(d, source, cs[i], diags);
      FindingsInSnoc(d, source, cs, i);
      AppendAssoc(here, FindingsIn(d, source, cs[..i]), Findings(d, source, cs[i]));
    }
    assert cs[..|cs|] == cs;
    AppendAssoc(acc, Emit(d, source, n), FindingsIn(d, source, cs));
  }

  method Run(ctx: Context) returns (diags: seq<Diagnostic>)
    requires WellFormed(ctx.source, ctx.root)
    ensures diags == Detected(ctx)
  {
    var dialect := DialectOf(ctx.language);
    if dialect.None? {
      return [];
    }
    diags := Walk(dialect.value, ctx.source, ctx.root, []);
  }

  /** A node that is not a call and has no named children yields nothing. */
  lemma LeafFindings(d: Dialect, source: string, n: Node)
    requires WellFormed(source, n)
    requires n.children == [] && n.kind != "call" && n.kind != "call_expression"
    ensures Findings(d, source, n) == []
  {
  }

  lemma FindingsInOne(d: Dialect, source: string, a: Node)
    requires WellFormed(source, a)
    ensures FindingsIn(d, source, [a]) == Findings(d, source, a)
  {
    assert [a][..0] == [];
  }

  lemma FindingsInPair(d: Dialect, source: string, a: Node, b: Node)
    requires WellFormed(source, a) && WellFormed(source, b)
    ensures FindingsIn(d, source, [a, b]) == Findings(d, source, a) + Findings(d, source, b)
  {
    assert [a, b][..1] == [a];
    FindingsInOne(d, source, a);
  }

  function Leaf(kind: string, startByte: nat, endByte: nat, startPoint: Point, endPoint: Point): Node {
    Node(kind, [], map[], startByte, endByte, startPoint, endPoint)
  }

  /** The callee `requests.get`, spanning the first twelve bytes of a line. */
  const ReqModule := Leaf("identifier", 0, 8, Point(0, 0), Point(0, 8))
  const ReqMethod := Leaf("identifier", 9, 12, Point(0, 9), Point(0, 12))
  const ReqCallee := Node("attribute", [ReqModule, ReqMethod], map["object" := ReqModule, "attribute" := ReqMethod],
                          0, 12, Point(0, 0), Point(0, 12))

  lemma ReqCalleeWellFormed(source: string)
    requires |source| >= 12
    ensures WellFormed(source, ReqCallee)
  {
    assert WellFormed(source, ReqModule) && WellFormed(source, ReqMethod);
  }

  lemma ReqCalleeIsClean(source: string)
    requires WellFormed(source, ReqCallee)
    ensures Findings(Python, source, ReqCallee) == []
  {
    LeafFindings(Python, source, ReqModule);
    LeafFindings(Python, source, ReqMethod);
    FindingsInPair(Python, source, ReqModule, ReqMethod);
  }

  /** In any source that starts with `requests.get`, the callee names a Python HTTP client. */
  lemma ReqCalleeIsRequests(source: string)
    requires |source| >= 12 && source[..12] == "requests.get"
    ensures IsRequestsFunction(TrimSpace(Content(source, Some(ReqCallee))))
  {
    assert source[0..12] == source[..12];
    TrimSpaceOfTrimmed("requests.get");
    assert HasPrefix("requests.get", RequestsPrefixes[0]);
  }

  /** `requests.get("https://service")` in Python. */
  const RequestsSource := "requests.get(\"https://service\")"

  const ReqUrl := Leaf("string", 13, 30, Point(0, 13), Point(0, 30))
  const ReqArgs := Node("argument_list", [ReqUrl], map[], 12, 31, Point(0, 12), Point(0, 31))
  const ReqCall := Node("call", [ReqCallee, ReqArgs], map["function" := ReqCallee, "arguments" := ReqArgs],
                        0, 31, Point(0, 0), Point(0, 31))
  const ReqStatement := Node("expression_statement", [ReqCall], map[], 0, 31, Point(0, 0), Point(0, 31))
  const RequestsTree := Node("module", [ReqStatement], map[], 0, 31, Point(0, 0), Point(0, 31))

  lemma RequestsTreeWellFormed()
    ensures WellFormed(RequestsSource, ReqCall) && WellFormed(RequestsSource, ReqStatement)
    ensures WellFormed(RequestsSource, RequestsTree)
  {
    var src := RequestsSource;
    assert |src| == 31;
    ReqCalleeWellFormed(src);
    assert WellFormed(src, ReqUrl);
    assert WellFormed(src, ReqArgs);
    assert WellFormed(src, ReqCall);
    assert WellFormed(src, ReqStatement);
  }

  lemma RequestsCallIsReported()
    requires WellFormed(RequestsSource, ReqCall)
    ensures Emit(Python, RequestsSource, ReqCall) == [RequestsFinding(ReqCall)]
  {
    var src := RequestsSource;
    assert |src| == 31 && src[..12] == "requests.get";
    ReqCalleeIsRequests(src);
    assert !HasKeywordArgument(src, ReqCall, "timeout") by {
      assert Arguments(ReqCall) == [ReqUrl];
    }
  }

  lemma RequestsCallFindings()
    requires WellFormed(RequestsSource, ReqCall)
    ensures Findings(Python, RequestsSource, ReqCall) == [RequestsFinding(ReqCall)]
  {
    var src := RequestsSource;
    RequestsCallIsReported();
    ReqCalleeIsClean(src);
    LeafFindings(Python, src, ReqUrl);
    FindingsInOne(Python, src, ReqUrl);
    FindingsInPair(Python, src, ReqCallee, ReqArgs);
  }

  lemma RequestsFindings(src: string)
    requires WellFormed(src, ReqCall) && WellFormed(src, ReqStatement) && WellFormed(src, RequestsTree)
    requires Findings(Python, src, ReqCall) == [RequestsFinding(ReqCall)]
    ensures Findings(Python, src, RequestsTree) == [RequestsFinding(ReqCall)]
  {
    FindingsInOne(Python, src, ReqCall);
    FindingsInOne(Python, src, ReqStatement);
  }

  /** A bare `requests.get` call is reported once, across the whole statement. */
  lemma RequestsWithoutTimeoutIsReported()
    ensures WellFormed(RequestsSource, RequestsTree)
    ensures Detected(Context("python", RequestsTree, RequestsSource)) ==
      [Diagnostic(ID, "", RequestsMessage, RequestsExplanation, Range(Position(0, 0), Position(0, 31)), [], "")]
  {
    RequestsTreeWellFormed();
    RequestsCallFindings();
    RequestsFindings(RequestsSource);
    PythonDialect();
  }

  /** `requests.get(url, timeout=5)` in Python. */
  const TimedSource := "requests.get(url, timeout=5)"

  const TimedUrl := Leaf("identifier", 13, 16, Point(0, 13), Point(0, 16))
  const TimedName := Leaf("identifier", 18, 25, Point(0, 18), Point(0, 25))
  const TimedValue := Leaf("integer", 26, 27, Point(0, 26), Point(0, 27))
  const TimedKeyword := Node("keyword_argument", [TimedName, TimedValue], map["name" := TimedName, "value" := TimedValue],
                             18, 27, Point(0, 18), Point(0, 27))
  const TimedArgs := Node("argument_list", [TimedUrl, TimedKeyword], map[], 12, 28, Point(0, 12), Point(0, 28))
  const TimedCall := Node("call", [ReqCallee, TimedArgs], map["function" := ReqCallee, "arguments" := TimedArgs],
                          0, 28, Point(0, 0), Point(0, 28))
  const TimedStatement := Node("expression_statement", [TimedCall], map[], 0, 28, Point(0, 0), Point(0, 28))
  const TimedTree := Node("module", [TimedStatement], map[], 0, 28, Point(0, 0), Point(0, 28))

  lemma TimedTreeWellFormed()
    ensures WellFormed(TimedSource, ReqCallee) && WellFormed(TimedSource, TimedKeyword)
    ensures WellFormed(TimedSource, TimedArgs) && WellFormed(TimedSource, TimedCall)
    ensures WellFormed(TimedSource, TimedStatement) && WellFormed(TimedSource, TimedTree)
  {
    var src := TimedSource;
    assert |src| == 28;
    ReqCalleeWellFormed(src);
    assert WellFormed(src, TimedUrl) && WellFormed(src, TimedName) && WellFormed(src, TimedValue);
    assert WellFormed(src, TimedKeyword);
    assert WellFormed(src, TimedArgs);
    assert WellFormed(src, TimedCall);
    assert WellFormed(src, TimedStatement);
  }

  lemma TimedArgsAreClean()
    requires WellFormed(TimedSource, TimedArgs)
    ensures Findings(Python, TimedSource, TimedArgs) == []
  {
    var src := TimedSource;
    LeafFindings(Python, src, TimedName);
    LeafFindings(Python, src, TimedValue);
    FindingsInPair(Python, src, TimedName, TimedValue);
    LeafFindings(Python, src, TimedUrl);
    FindingsInPair(Python, src, TimedUrl, TimedKeyword);
  }

  lemma TimedCallIsSilent()
    requires WellFormed(TimedSource, TimedCall) && WellFormed(TimedSource, TimedKeyword)
    ensures Emit(Python, TimedSource, TimedCall) == []
  {
    var src := TimedSource;
    assert |src| == 28 && src[18..25] == "timeout";
    TrimSpaceOfTrimmed("timeout");
    assert IsKeywordArgument(src, TimedKeyword, "timeout");
    assert Arguments(TimedCall)[1] == TimedKeyword;
    TimeoutKeywordSilences(src, TimedCall);
  }

  lemma TimedCallFindings()
    requires WellFormed(TimedSource, TimedCall) && WellFormed(TimedSource, TimedKeyword)
    requires WellFormed(TimedSource, ReqCallee) && WellFormed(TimedSource, TimedArgs)
    ensures Findings(Python, TimedSource, TimedCall) == []
  {
    var src := TimedSource;
    ReqCalleeIsClean(src);
    TimedArgsAreClean();
    TimedCallIsSilent();
    FindingsInPair(Python, src, ReqCallee, TimedArgs);
  }

  lemma TimedFindings()
    requires WellFormed(TimedSource, ReqCallee) && WellFormed(TimedSource, TimedKeyword)
    requires WellFormed(TimedSource, TimedArgs) && WellFormed(TimedSource, TimedCall)
    requires WellFormed(TimedSource, TimedStatement) && WellFormed(TimedSource, TimedTree)
    ensures Findings(Python, TimedSource, TimedTree) == []
  {
    TimedCallFindings();
    FindingsInOne(Python, TimedSource, TimedCall);
    FindingsInOne(Python, TimedSource, TimedStatement);
  }

  /** The same call with `timeout=5` is not reported. */
  lemma RequestsWithTimeoutIsSilent()
    ensures WellFormed(TimedSource, TimedTree)
    ensures Detected(Context("python", TimedTree, TimedSource)) == []
  {
    TimedTreeWellFormed();
    TimedFindings();
    PythonDialect();
  }

  /** `fetch("/api/data")` in JavaScript. */
  const FetchSource := "fetch(\"/api/data\")"

  const FetchCallee := Leaf("identifier", 0, 5, Point(0, 0), Point(0, 5))
  const FetchUrl := Leaf("string", 6, 17, Point(0, 6), Point(0, 17))
  const FetchArgs := Node("arguments", [FetchUrl], map[], 5, 18, Point(0, 5), Point(0, 18))
  const FetchCall := Node("call_expression", [FetchCallee, FetchArgs], map["function" := FetchCallee, "arguments" := FetchArgs],
                          0, 18, Point(0, 0), Point(0, 18))
  const FetchStatement := Node("expression_statement", [FetchCall], map[], 0, 18, Point(0, 0), Point(0, 18))
  const FetchTree := Node("program", [FetchStatement], map[], 0, 18, Point(0, 0), Point(0, 18))

  lemma FetchTreeWellFormed()
    ensures WellFormed(FetchSource, FetchCall) && WellFormed(FetchSource, FetchStatement)
    ensures WellFormed(FetchSource, FetchTree)
  {
    var src := FetchSource;
    assert |src| == 18;
    assert WellFormed(src, FetchCallee) && WellFormed(src, FetchUrl);
    assert WellFormed(src, FetchArgs);
    assert WellFormed(src, FetchCall);
    assert WellFormed(src, FetchStatement);
  }

  lemma FetchCallIsReported()
    requires WellFormed(FetchSource, FetchCall)
    ensures Emit(JavaScript, FetchSource, FetchCall) == [FetchFinding(FetchCall)]
  {
    var src := FetchSource;
    assert |src| == 18 && src[0..5] == "fetch";
    TrimSpaceOfTrimmed("fetch");
    assert CalleeName(src, FetchCall) == "fetch";
    SingleArgumentFetchIsReported(src, FetchCall);
  }

  lemma FetchCallFindings()
    requires WellFormed(FetchSource, FetchCall)
    ensures Findings(JavaScript, FetchSource, FetchCall) == [FetchFinding(FetchCall)]
  {
    var src := FetchSource;
    FetchCallIsReported();
    LeafFindings(JavaScript, src, FetchCallee);
    LeafFindings(JavaScript, src, FetchUrl);
    FindingsInOne(JavaScript, src, FetchUrl);
    FindingsInPair(JavaScript, src, FetchCallee, FetchArgs);
  }

  lemma FetchFindings(src: string)
    requires WellFormed(src, FetchCall) && WellFormed(src, FetchStatement) && WellFormed(src, FetchTree)
    requires Findings(JavaScript, src, FetchCall) == [FetchFinding(FetchCall)]
    ensures Findings(JavaScript, src, FetchTree) == [FetchFinding(FetchCall)]
  {
    FindingsInOne(JavaScript, src, FetchCall);
    FindingsInOne(JavaScript, src, FetchStatement);
  }

  /** A bare fetch is reported once, with severity info and the rule's tags. */
  lemma FetchWithoutTimeoutIsReported()
    ensures WellFormed(FetchSource, FetchTree)
    ensures Detected(Context("javascript", FetchTree, FetchSource)) ==
      [Diagnostic(ID, "info", FetchMessage, FetchExplanation, Range(Position(0, 0), Position(0, 18)),
                  Tags, "")]
  {
    FetchTreeWellFormed();
    FetchCallFindings();
    FetchFindings(FetchSource);
    JavaScriptDialect();
  }
}
