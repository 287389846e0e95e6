/** What every rule shares: its metadata record, the context it runs in, the text of
    a node, the node-to-range conversion and the small search helpers. */
module RuleBase {
  import opened Wrappers
  import opened Strings
  import opened Diagnostics
  import opened SyntaxTree

  datatype RuleMeta = RuleMeta(defaultSeverity: string, tags: seq<string>, short: string, long: string)

  /** What a rule is handed: the request's language tag, the tree root and the raw source. */
  datatype Context = Context(language: string, root: Node, source: string)

  /** The two grammar families the rules know how to walk. */
  datatype Dialect = Python | JavaScript

  /** The dispatch every rule's `Run` performs on the lowercased language tag;
      `None` means the rule reports nothing. */
  function DialectOf(language: string): (r: Option<Dialect>)
    ensures r == Some(Python) <==> ToLower(language) == "python"
    ensures r == Some(JavaScript) <==> ToLower(language) in {"javascript", "typescript"}
  {
    var l := ToLower(language);
    if l == "python" then Some(Python)
    else if l == "javascript" || l == "typescript" then Some(JavaScript)
    else None
  }

  /** The language switch of every rule's `Supports`. */
  predicate SupportsScriptLanguages(language: string) {
    ToLower(language) in {"python", "javascript", "typescript"}
  }

  lemma SupportedIffDialect(language: string)
    ensures SupportsScriptLanguages(language) <==> DialectOf(language).Some?
  {
  }

  /** The dispatch on the tags `ts.DetectLanguage` produces. */
  lemma PythonDialect()
    ensures DialectOf("python") == Some(Python)
  {
    ToLowerOfLower("python");
  }

  lemma JavaScriptDialect()
    ensures DialectOf("javascript") == Some(JavaScript)
  {
    ToLowerOfLower("javascript");
  }

  /** The text a node spans; the absent node has none. */
  function Content(source: string, n: Option<Node>): (r: string)
    requires n.Some? ==> n.value.startByte <= n.value.endByte <= |source|
    ensures n.None? ==> r == ""
    ensures n.Some? ==> |r| == n.value.endByte - n.value.startByte
  {
    match n
    case None => ""
    case Some(m) => source[m.startByte..m.endByte]
  }

  /** The text of a node's field child; blank when the node has no such field. */
  function FieldContent(source: string, n: Node, name: string): (r: string)
    requires WellFormed(source, n)
    ensures name !in n.fields ==> r == ""
  {
    assert name in n.fields ==> WellFormed(source, n.fields[name]);
    Content(source, ChildByFieldName(n, name))
  }

  /** A node's text is the source between its start and end bytes, character by character. */
  lemma ContentIsSpan(source: string, n: Node)
    requires n.startByte <= n.endByte <= |source|
    ensures forall k :: 0 <= k < n.endByte - n.startByte ==> Content(source, Some(n))[k] == source[n.startByte + k]
  {
  }

  /** A node's span as a diagnostic range; the placeholder (0,0)-(0,1) when absent. */
  function RangeFromNode(n: Option<Node>): (r: Range)
    ensures n.None? ==> r == FileStart
    ensures n.Some? ==> r.start == Position(n.value.startPoint.row, n.value.startPoint.column)
    ensures n.Some? ==> r.end == Position(n.value.endPoint.row, n.value.endPoint.column)
  {
    match n
    case None => FileStart
    case Some(m) =>
      Range(Position(m.startPoint.row, m.startPoint.column), Position(m.endPoint.row, m.endPoint.column))
  }

  lemma AppendAssoc<T>(a: seq<T>, b: seq<T>, c: seq<T>)
    ensures (a + b) + c == a + (b + c)
  {
  }

  /** `s` equals one of `options` ignoring (ASCII) case. */
  predicate MatchesAny(s: string, options: seq<string>) {
    exists i :: 0 <= i < |options| && EqualFold(s, options[i])
  }

  /** The search loop behind `matchesAny`, returning at the first match. */
  method SearchMatchesAny(s: string, options: seq<string>) returns (found: bool)
    ensures found == MatchesAny(s, options)
  {
    var i := 0;
    while i < |options|
      invariant 0 <= i <= |options|
      invariant forall j :: 0 <= j < i ==> !EqualFold(s, options[j])
    {
      if EqualFold(s, options[i]) {
        return true;
      }
      i := i + 1;
    }
    return false;
  }

  lemma MatchesAnyOfNothing(s: string)
    ensures !MatchesAny(s, [])
  {
  }

  /** The lowest-index named child from position `i` on whose type is `t`. */
  function FirstOfTypeFrom(cs: seq<Node>, t: string, i: nat): Option<Node>
    requires i <= |cs|
    decreases |cs| - i
  {
    if i == |cs| then None
    else if cs[i].kind == t then Some(cs[i])
    else FirstOfTypeFrom(cs, t, i + 1)
  }

  /** The first named child of type `t`, or none. */
  function FirstChildOfType(n: Node, t: string): Option<Node> {
    FirstOfTypeFrom(n.children, t, 0)
  }

  lemma {:induction false} FirstOfTypeFromSpec(cs: seq<Node>, t: string, i: nat)
    requires i <= |cs|
    ensures FirstOfTypeFrom(cs, t, i).None? <==> forall j :: i <= j < |cs| ==> cs[j].kind != t
    ensures FirstOfTypeFrom(cs, t, i).Some? ==>
      exists j :: (i <= j < |cs| && cs[j] == FirstOfTypeFrom(cs, t, i).value && cs[j].kind == t
                   && forall k :: i <= k < j ==> cs[k].kind != t)
    decreases |cs| - i
  {
    if i < |cs| && cs[i].kind != t {
      FirstOfTypeFromSpec(cs, t, i + 1);
    }
  }

  /** `firstChildOfType` finds the lowest-index named child of the given type, and
      finds none exactly when no named child has that type. */
  lemma FirstChildOfTypeSpec(n: Node, t: string)
    ensures FirstChildOfType(n, t).None? <==> forall j :: 0 <= j < |n.children| ==> n.children[j].kind != t
    ensures FirstChildOfType(n, t).Some? ==>
      exists j :: (0 <= j < |n.children| && n.children[j] == FirstChildOfType(n, t).value
                   && n.children[j].kind == t
                   && forall k :: 0 <= k < j ==> n.children[k].kind != t)
  {
    FirstOfTypeFromSpec(n.children, t, 0);
  }

  /** The loop behind `firstChildOfType`, returning at the first child of type `t`. */
  method SearchFirstChildOfType(n: Node, t: string) returns (r: Option<Node>)
    ensures r == FirstChildOfType(n, t)
  {
    var i := 0;
    while i < |n.children|
      invariant 0 <= i <= |n.children|
      invariant FirstOfTypeFrom(n.children, t, i) == FirstChildOfType(n, t)
    {
      if n.children[i].kind == t {
        return Some(n.children[i]);
      }
      i := i + 1;
    }
    return None;
  }
}
