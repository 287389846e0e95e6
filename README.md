# check-this analyzer core in Dafny

check-this is a static analyzer for Python, JavaScript and TypeScript. It is used
from an editor plugin. The analyzer parses a file with tree-sitter. It then runs a
fixed list of rules over the syntax tree and returns a JSON envelope of
diagnostics.

This project models the analyzer's core and proves properties of the model:

- **Configuration** (`config.dfy`). Per-rule enablement, severity overrides and
  `Merge`.
- **Diagnostics** (`diagnostic.dfy`). The diagnostic, range, statistics and
  output records.
- **SyntaxTree** (`tree.dfy`). A tree-sitter node as a value: kind, named
  children, named fields, byte span and start/end points. `WellFormed` says every
  span lies inside the source.
- **RuleBase** (`rule.dfy`). Rule metadata and context, plus the shared helpers
  `content`, `rangeFromNode`, `matchesAny` and `firstChildOfType`.
- **Four shipped rules** (`errors_swallowed.dfy`, `net_no_timeout.dfy`,
  `retry_unbounded.dfy`, `state_global_mutable.dfy`). The first three walk the
  whole tree. Each of those walks is a recursive specification function over the
  tree, with a note of which nodes it reports, and an imperative `Walk`/`Run` is
  proved equal to it. `state.global_mutable` has no tree walk. It looks only at the
  root's children, and its specification functions `PythonFindings` and
  `ScriptFindings` recurse over that list. Its loops `RunPython`, `RunJS` and
  `CollectDeclarators` are proved equal to them, with `Run` dispatching. Each search loop is a method proved against a predicate. The keyword-argument,
  fetch-timeout, argument and prefix searches are `while` loops. The backoff search
  is a recursive method with a `for` loop over the children.
- **Rules** (`rules.dfy`). The `Rule` interface. It has the four shipped rules
  plus `Other`, any further implementation, which may fail.
- **Suppressions** (`suppressions.dfy`). Collection of inline
  `check-this: disable=` markers and the `shouldSuppress` test.
- **AnalyzerEngine** (`engine.dfy`). `NewEngine`, `Analyze` and `ValidateInput`.
  `Analyze` is a method whose loop over the rules is proved equal to the
  specification function `Analysis`.
- **EngineLaws** (`engine_laws.dfy`). Laws relating several calls of the engine.
- **Ts** (`ts.dfy`). `DetectLanguage` and `Supported`.

Two supporting modules complete the project:

- **Strings** (`strings.dfy`) models the Go library functions the core uses:
  `TrimSpace`, `ToLower`, `EqualFold`, `Index`, `Contains`, `Split` and
  `HasPrefix`.
- **Wrappers** (`wrappers.dfy`) supplies `Option` and `Result`.

Parsing is not modelled. `Analyze` receives the parse outcome, either a tree or
an error message, as a parameter. It also receives the two measured durations.

### Where the code and its written description differ

The model follows the code in each case.

- **Severity.** The configured severity applies only to diagnostics that leave
  their severity blank. The JavaScript `fetch`/`axios` findings of
  `net.no_timeout` carry "info", and `retry.unbounded`'s JavaScript findings
  carry "warning". A configured severity does not change them
  (`EngineLaws.ExplicitSeverityIgnoresConfig`).
- **Failing rules.** A rule whose `Run` fails is not counted in `RulesRun`.
- **Which id suppression uses.** Suppression is decided on the id the rule
  supplied, before back-fill. A diagnostic with a blank id is therefore never
  suppressed.
- **Markers are file-wide.** Every marker also records the sentinel line -1. A
  listed id is therefore dropped everywhere in the file, not only on the marker's
  line (`Suppressions.SuppressionIsFileWide`).
- **Merge.** An override entry replaces the whole setting of that rule. A
  severity-only override re-enables a disabled rule
  (`Configuration.SeverityOnlyOverrideReenables`).
- **Trimming.** `DetectLanguage` lowercases an explicit language flag but does
  not trim it. This contradicts the language test, which the Findings section
  below records.

## Model

| member | source | states |
|---|---|---|
| Configuration.RuleEnabled | analyzer/internal/config/config.go:16-21 | a rule is disabled exactly when it has an entry whose `enabled` is explicitly false; otherwise enabled by default |
| Configuration.RuleSeverity | analyzer/internal/config/config.go:24-29 | a non-blank configured severity is returned; without one the default is returned; the result is never blank unless the default is blank |
| Configuration.Merge | analyzer/internal/config/config.go:32-41 | the copy loop over both maps yields the merged configuration (override entries win) |
| Configuration.MergedSettings | analyzer/internal/config/config.go:32-41 | after a merge, a rule the override lists has exactly the override's enablement and severity; any other rule as the base says |
| Configuration.UnconfiguredDefaults | analyzer/internal/config/config.go:15-29 | with no configuration every rule is enabled and keeps its default severity |
| Configuration.MergeLaws | analyzer/internal/config/config.go:32-41 | the empty configuration is a unit on both sides, merging is idempotent and associative |
| Configuration.SeverityOnlyOverrideReenables | analyzer/internal/config/config.go:37-39 | an override entry replaces the whole setting, so a severity-only entry undoes a disable |
| RuleBase.DialectOf | analyzer/internal/rules/errors_swallowed.go:34-43 | a language runs the Python walk exactly when it lowercases to "python" and the JavaScript walk exactly when it lowercases to "javascript" or "typescript" |
| RuleBase.SupportedIffDialect | analyzer/internal/rules/errors_swallowed.go:26-32 | `Supports` accepts a language exactly when `Run` has a walk for it |
| RuleBase.Content | analyzer/internal/rules/rule.go:32-37 | a missing node has empty content; a node's content is as long as its byte span |
| RuleBase.ContentIsSpan | analyzer/internal/rules/rule.go:32-37 | each character of a node's content is the source byte at the same offset in its span |
| RuleBase.RangeFromNode | analyzer/internal/rules/helpers.go:10-23 | a missing node maps to (0,0)-(0,1); a node maps to its start and end rows and columns |
| RuleBase.SearchMatchesAny | analyzer/internal/rules/helpers.go:25-32 | the loop returns true exactly when some option equals the string ignoring case |
| RuleBase.MatchesAnyOfNothing | analyzer/internal/rules/helpers.go:25-32 | with no options nothing matches |
| RuleBase.FirstChildOfTypeSpec | analyzer/internal/rules/errors_swallowed.go:116-127 | the result is absent exactly when no named child has the kind; otherwise it is the first child of that kind |
| RuleBase.SearchFirstChildOfType | analyzer/internal/rules/errors_swallowed.go:116-127 | the loop over the named children returns the first child of the kind |
| Ts.DetectLanguage | analyzer/internal/ts/ts.go:39-48 | without a flag the result is empty or one of the three supported languages |
| Ts.Supported | analyzer/internal/ts/ts.go:66-70 | a tag is supported exactly when its lowercased form is python, javascript or typescript; the blank tag is not supported |
| Ts.SupportedIgnoresCase | analyzer/internal/ts/ts.go:66-70 | a tag and its lower-case form are supported together |
| Ts.NoFlagIsBlankOrSupported | analyzer/internal/ts/ts.go:39-48 | without a flag the detected tag is blank or supported |
| Ts.FlagOverridesPath | analyzer/internal/ts/ts.go:40-42 | a non-empty flag decides the language whatever the path, and the result is supported exactly when the flag is |
| Ts.DetectByExtension | analyzer/internal/ts/ts.go:27-48 | without a flag, a file whose extension (in any case) is in the extension table gets that table entry, which is supported |
| Ts.ExtShape | analyzer/internal/ts/ts.go:43 | the extension is empty or a dot-led suffix of the path with no further dot and no separator |
| Ts.ExtOfName | analyzer/internal/ts/ts.go:43 | the extension of `stem + ext` is `ext` |
| Ts.ExtStopsAtSeparator | analyzer/internal/ts/ts.go:43 | a last path element without a dot has no extension, even below a dotted directory |
| Ts.LanguagesAreLower | analyzer/internal/ts/ts.go:21-35 | every language in the extension table is one of the parser languages and supported |
| Ts.UpperCaseExtension | analyzer/internal/ts/ts.go:43-45 | an upper-case `.PY` is detected as Python |
| Ts.UnknownExtensionIsBlank | analyzer/internal/ts/ts.go:43-47 | without a flag, the blank tag comes back exactly when the lowercased extension is not in the table; a path without an extension gets the blank tag |
| Ts.DottedDirectoryIsNoExtension | analyzer/internal/ts/ts.go:43-47 | `src.d/Makefile` has no language |
| Ts.PaddedFlagIsUnsupported | analyzer/internal/ts/ts.go:40-42 | a flag with leading white space is lowercased but kept padded, and is then unsupported |
| Ts.FlagIsNotTrimmed | analyzer/internal/ts/ts_test.go:5-10 | the flag `" PYTHON "` yields `" python "`, not `python`, and is unsupported |
| Ts.DetectLanguageTrimmed | analyzer/internal/ts/ts_test.go:5-10 | the corrected detection: without a flag it agrees with `DetectLanguage`; with a flag the result has no surrounding whitespace |
| Ts.TrimmedAgreesOnPlainFlags | analyzer/internal/ts/ts.go:39-48 | on a flag without surrounding whitespace the correction changes nothing |
| Ts.TrimmedFlagSupport | analyzer/internal/ts/ts_test.go:5-10 | with the correction a padded flag is supported exactly when its trimmed text is |
| Ts.PaddedFlagIsTrimmed | analyzer/internal/ts/ts_test.go:5-10 | with the correction the test's `" PYTHON "` yields `python`, which is supported |
| SyntaxTree.ChildByFieldName | analyzer/internal/rules/retry_unbounded.go:53 | a field lookup succeeds exactly for a named field and returns that field's node |
| SyntaxTree.PreorderInMembers | analyzer/internal/rules/errors_swallowed.go:66-68 | the walk over a list of children visits exactly the nodes of the children's subtrees |
| SyntaxTree.PreorderWellFormed | analyzer/internal/rules/errors_swallowed.go:66-68 | every node the walk visits lies inside the source |
| ErrorsSwallowed.FindingsArePreorder | analyzer/internal/rules/errors_swallowed.go:45-72 | the walk reports the swallowing handlers in pre-order: its findings are the per-node findings of the pre-order traversal |
| ErrorsSwallowed.EmitAllAreFindings | analyzer/internal/rules/errors_swallowed.go:52-65 | every finding comes from a visited handler that swallows its exception |
| ErrorsSwallowed.FindingsShape | analyzer/internal/rules/errors_swallowed.go:58-64 | every finding carries the rule's id, a blank severity, the dialect's tags and the range of a swallowing handler in the tree |
| ErrorsSwallowed.HandledIsNotReported | analyzer/internal/rules/errors_swallowed.go:52-65 | an `except` block with two statements, or one that is not `pass`, is not reported |
| ErrorsSwallowed.LeafFindings | analyzer/internal/rules/errors_swallowed.go:45-72 | a leaf that is not a handler yields nothing |
| ErrorsSwallowed.Detected | analyzer/internal/rules/errors_swallowed.go:34-43 | an unsupported language yields nothing; every finding carries the rule's id and a blank severity |
| ErrorsSwallowed.CheckHandler | analyzer/internal/rules/errors_swallowed.go:52-57 | the handler test flags exactly the handlers that swallow (missing, empty or `pass`-only block) |
| ErrorsSwallowed.Visit | analyzer/internal/rules/errors_swallowed.go:52-65 | one node's check appends that node's finding, if any |
| ErrorsSwallowed.Walk | analyzer/internal/rules/errors_swallowed.go:45-72 | the recursive walk appends exactly the tree's findings |
| ErrorsSwallowed.Run | analyzer/internal/rules/errors_swallowed.go:34-43 | `Run` returns the rule's detected findings |
| ErrorsSwallowed.DetectedInDialect | analyzer/internal/rules/errors_swallowed.go:34-43 | `Run` dispatches on the dialect of the language |
| ErrorsSwallowed.PythonPassIsReported | analyzer/internal/rules/errors_swallowed_test.go:9-28 | the test's `except Exception: pass` tree yields exactly one diagnostic: the rule's id, blank severity and tags, on the handler's range |
| ErrorsSwallowed.ScriptEmptyCatchIsReported | analyzer/internal/rules/errors_swallowed_test.go:30-48 | the test's empty `catch {}` tree yields exactly one finding on the catch clause |
| NetNoTimeout.RequestsFunctionIff | analyzer/internal/rules/net_no_timeout.go:113-121 | a callee is a requests function exactly when it starts with `requests.` or `httpx.` |
| NetNoTimeout.SearchPrefixes | analyzer/internal/rules/net_no_timeout.go:113-121 | the prefix loop returns true exactly when some prefix matches |
| NetNoTimeout.ArgumentsWellFormed | analyzer/internal/rules/net_no_timeout.go:123-148 | the arguments of a well-formed call lie inside the source |
| NetNoTimeout.SearchKeywordArgument | analyzer/internal/rules/net_no_timeout.go:123-148 | the loop returns true exactly when some `keyword_argument` has that name, or its trimmed text starts with it |
| NetNoTimeout.SearchFetchTimeout | analyzer/internal/rules/net_no_timeout.go:150-169 | the loop returns true exactly when there are at least two arguments and some trimmed argument contains `timeout`, `AbortController` or `signal` |
| NetNoTimeout.SearchArgumentContains | analyzer/internal/rules/net_no_timeout.go:171-186 | the search returns true exactly when some argument's text contains the needle ignoring case; a call without an arguments field contains nothing |
| NetNoTimeout.AnyMentions | analyzer/internal/rules/net_no_timeout.go:176-185 | the loop returns true exactly when some node's text contains the needle ignoring case |
| NetNoTimeout.OneFindingPerCall | analyzer/internal/rules/net_no_timeout.go:52-65 | a node yields at most one finding, and one exactly when it is an unguarded call of the dialect |
| NetNoTimeout.FindingsShape | analyzer/internal/rules/net_no_timeout.go:45-111 | every finding carries the rule's id, the dialect's severity ("" for Python, "info" for JavaScript) and tags, and comes from a visited node |
| NetNoTimeout.TimeoutKeywordSilences | analyzer/internal/rules/net_no_timeout.go:51-56 | a Python call with a `timeout=` keyword is never reported, and neither is a call whose callee is not a `requests`/`httpx` function |
| NetNoTimeout.SingleArgumentFetchIsReported | analyzer/internal/rules/net_no_timeout.go:84-93 | a `fetch` with fewer than two arguments is reported |
| NetNoTimeout.LeafFindings | analyzer/internal/rules/net_no_timeout.go:45-111 | a leaf that is not a call yields nothing |
| NetNoTimeout.Detected | analyzer/internal/rules/net_no_timeout.go:34-43 | an unsupported language yields nothing; every finding carries the rule's id |
| NetNoTimeout.CheckRequestsCall | analyzer/internal/rules/net_no_timeout.go:52-65 | flags exactly the unguarded `requests`/`httpx` calls |
| NetNoTimeout.CheckFetchCall | analyzer/internal/rules/net_no_timeout.go:84-93 | flags exactly the `fetch` calls without a timeout |
| NetNoTimeout.CheckAxiosCall | analyzer/internal/rules/net_no_timeout.go:94-103 | flags exactly the `axios` calls whose arguments mention no timeout |
| NetNoTimeout.Visit | analyzer/internal/rules/net_no_timeout.go:52-65 | one node's check appends that node's finding, if any |
| NetNoTimeout.Walk | analyzer/internal/rules/net_no_timeout.go:45-72 | the recursive walk appends exactly the tree's findings |
| NetNoTimeout.Run | analyzer/internal/rules/net_no_timeout.go:34-43 | `Run` returns the rule's detected findings |
| NetNoTimeout.ReqCalleeIsRequests | analyzer/internal/rules/net_no_timeout_test.go:9-23 | the callee text `requests.get` is a requests function |
| NetNoTimeout.RequestsWithoutTimeoutIsReported | analyzer/internal/rules/net_no_timeout_test.go:9-23 | the test's `requests.get(url)` tree yields exactly one finding on the call |
| NetNoTimeout.RequestsWithTimeoutIsSilent | analyzer/internal/rules/net_no_timeout.go:52-65 | `requests.get(url, timeout=5)` yields nothing |
| NetNoTimeout.FetchWithoutTimeoutIsReported | analyzer/internal/rules/net_no_timeout_test.go:25-39 | the test's `fetch(url)` tree yields exactly one diagnostic, with severity "info", the rule's tags and the call's range |
| RetryUnbounded.BackoffIffBoundingNode | analyzer/internal/rules/retry_unbounded.go:111-140 | a body has backoff exactly when some node in it is a sleep/backoff/delay/setTimeout call or a `break`/`return` |
| RetryUnbounded.BackoffInIffBoundingNode | analyzer/internal/rules/retry_unbounded.go:134-136 | the same for a list of children |
| RetryUnbounded.SearchBackoff | analyzer/internal/rules/retry_unbounded.go:111-140 | the early-exit search returns the flag or'ed with whether the body has backoff |
| RetryUnbounded.ConditionTestsAgree | analyzer/internal/rules/retry_unbounded.go:54-55 | the Python test (trim, then compare ignoring case) agrees with the JavaScript one (lowercase, trim, compare), at lines 146-147 |
| RetryUnbounded.LoopBody | analyzer/internal/rules/retry_unbounded.go:56-59 | the `body` field is used when present |
| RetryUnbounded.LoopBodyWellFormed | analyzer/internal/rules/retry_unbounded.go:56-59 | the loop body lies inside the source |
| RetryUnbounded.FindingsShape | analyzer/internal/rules/retry_unbounded.go:45-109 | every finding carries the rule's id and the dialect's severity and tags, and is the finding of an unbounded loop in the tree |
| RetryUnbounded.BoundedBodyIsSilent | analyzer/internal/rules/retry_unbounded.go:60 | a loop whose body contains a bounding node is not reported |
| RetryUnbounded.BodilessLoopIsSilent | analyzer/internal/rules/retry_unbounded.go:57-60 | a loop with no body field and no block child is not reported |
| RetryUnbounded.PythonForIsSilent | analyzer/internal/rules/retry_unbounded.go:52 | the Python walk never reports a `for` loop |
| RetryUnbounded.ForeverForIsReported | analyzer/internal/rules/retry_unbounded.go:148-151 | a JavaScript `for(;;)` whose body has no bounding node is reported |
| RetryUnbounded.Detected | analyzer/internal/rules/retry_unbounded.go:34-43 | an unsupported language yields nothing; every finding carries the rule's id |
| RetryUnbounded.CheckBody | analyzer/internal/rules/retry_unbounded.go:56-60 | flags exactly the loops that have a body without backoff |
| RetryUnbounded.CheckLoop | analyzer/internal/rules/retry_unbounded.go:52-60 | flags exactly the unbounded loops of the dialect |
| RetryUnbounded.Visit | analyzer/internal/rules/retry_unbounded.go:52-69 | one node's check appends that node's finding, if any |
| RetryUnbounded.Walk | analyzer/internal/rules/retry_unbounded.go:45-76 | the recursive walk appends exactly the tree's findings |
| RetryUnbounded.Run | analyzer/internal/rules/retry_unbounded.go:34-43 | `Run` returns the rule's detected findings |
| StateGlobalMutable.PythonFindingsBound | analyzer/internal/rules/state_global_mutable.go:45-66 | the Python pass reports at most one finding per top-level statement |
| StateGlobalMutable.PythonFindingsExactly | analyzer/internal/rules/state_global_mutable.go:45-66 | a Python finding exists exactly for each top-level `expression_statement` whose trimmed text contains `=` and a `[` or `{` |
| StateGlobalMutable.DeclaratorFindingsExactly | analyzer/internal/rules/state_global_mutable.go:77-93 | a declarator is reported exactly when its value is a mutable literal |
| StateGlobalMutable.ScriptFindingsByStatement | analyzer/internal/rules/state_global_mutable.go:68-97 | a JavaScript finding comes exactly from the declarators of a top-level declaration |
| StateGlobalMutable.ScriptFindingsExactly | analyzer/internal/rules/state_global_mutable.go:68-97 | a JavaScript finding exists exactly for each declarator of a top-level declaration whose value is a mutable literal |
| StateGlobalMutable.UninitialisedIsSilent | analyzer/internal/rules/state_global_mutable.go:82-83 | a declarator without a value is not reported |
| StateGlobalMutable.LiteralKindsAreMutable | analyzer/internal/rules/state_global_mutable.go:99-106 | object, array, dictionary and list nodes count as mutable literals, whatever their text |
| StateGlobalMutable.Detected | analyzer/internal/rules/state_global_mutable.go:34-43 | an unsupported language yields nothing; a Python file yields at most one finding per top-level statement |
| StateGlobalMutable.DetectedShape | analyzer/internal/rules/state_global_mutable.go:45-97 | every finding carries the rule's id, severity "info" and the dialect's tags |
| StateGlobalMutable.RunPython | analyzer/internal/rules/state_global_mutable.go:45-66 | the loop over top-level statements computes the Python findings |
| StateGlobalMutable.CollectDeclarators | analyzer/internal/rules/state_global_mutable.go:77-93 | the inner loop appends the declarators' findings |
| StateGlobalMutable.RunJS | analyzer/internal/rules/state_global_mutable.go:68-97 | the loop over top-level statements computes the JavaScript findings |
| StateGlobalMutable.Run | analyzer/internal/rules/state_global_mutable.go:34-43 | `Run` returns the rule's detected findings |
| Rules.RunResult | analyzer/internal/rules/rule.go:24-29 | a shipped rule never fails, and its diagnostics carry its own id |
| Rules.Run | analyzer/internal/rules/rule.go:24-29 | dispatching `Run` to the rule's implementation yields the rule's outcome |
| Rules.BuiltinSupported | analyzer/internal/rules/errors_swallowed.go:26-32 | a shipped rule supports a language exactly when the parser does |
| Rules.BuiltinSupport | analyzer/internal/rules/errors_swallowed.go:26-43 | a shipped rule that does not support the language returns no diagnostics |
| Suppressions.IdsInSpec | analyzer/internal/engine/engine.go:162-166 | an id is taken from a marker exactly when it is a non-blank trimmed piece of the comma-separated list |
| Suppressions.MarkAllSpec | analyzer/internal/engine/engine.go:167-172 | recording ids adds each of them for the marker's line and for the file-wide sentinel, and nothing else |
| Suppressions.LineIdsSpec | analyzer/internal/engine/engine.go:155-161 | each line's ids are that line's marker ids |
| Suppressions.IndexOfKeys | analyzer/internal/engine/engine.go:153-176 | an id is in the index exactly when some line lists it, and then it is file-wide |
| Suppressions.IndexOfLines | analyzer/internal/engine/engine.go:167-170 | the index holds an id for a line exactly when that line lists it |
| Suppressions.SuppressionIndexLines | analyzer/internal/engine/engine.go:153-176 | the same for a whole source split at newlines |
| Suppressions.SuppressionIsFileWide | analyzer/internal/engine/engine.go:139-151 | a diagnostic is suppressed exactly when its own id is listed on some line, whatever its line |
| Suppressions.BlankIdIsNeverSuppressed | analyzer/internal/engine/engine.go:139-151 | a diagnostic with a blank id is never suppressed |
| Suppressions.RecordIds | analyzer/internal/engine/engine.go:162-173 | the loop over one marker's pieces records its ids |
| Suppressions.CollectSuppressions | analyzer/internal/engine/engine.go:153-176 | the loop over the lines builds the suppression index of the source |
| SuppressionExample.MarkerLineListsErrorsSwallowed | analyzer/internal/engine/engine_test.go:11 | the test's marker line lists exactly `errors.swallowed` |
| SuppressionExample.ScenarioListsErrorsSwallowed | analyzer/internal/engine/engine_test.go:11 | the test's source lists `errors.swallowed` on one of its lines |
| AnalyzerEngine.VersionOrDefault | analyzer/internal/engine/engine.go:178-183 | a blank version becomes "1.0"; any other is kept |
| AnalyzerEngine.Attempted | analyzer/internal/engine/engine.go:84-108 | a rule is skipped exactly when it is disabled or does not support the language; a shipped rule never fails |
| AnalyzerEngine.AppendSurvivors | analyzer/internal/engine/engine.go:110-124 | the loop appends the back-filled diagnostics that are not suppressed, in order |
| AnalyzerEngine.ApplyRule | analyzer/internal/engine/engine.go:84-125 | one pass of the rules loop appends the rule's contribution and counts it only if it succeeded |
| AnalyzerEngine.AttemptsStep | analyzer/internal/engine/engine.go:83-126 | one more rule extends the output by that rule's contribution and its count |
| AnalyzerEngine.Analyze | analyzer/internal/engine/engine.go:42-129 | the method computes the specified output for any request, parse outcome and timings |
| AnalyzerEngine.ValidateInput | analyzer/internal/engine/engine.go:186-197 | a request is accepted exactly when its source is non-empty and its language is non-empty and supported; otherwise the first failing check, in the order empty source, empty language, unsupported language, gives its error |
| EngineLaws.ContributionsAppend | analyzer/internal/engine/engine.go:83-126 | the output of consecutive rule lists is the concatenation of their outputs |
| EngineLaws.RulesRunAppend | analyzer/internal/engine/engine.go:125 | the count over consecutive rule lists is the sum of their counts |
| EngineLaws.SkippedPasses | analyzer/internal/engine/engine.go:84-89 | if every rule is skipped, nothing is reported and nothing is counted |
| EngineLaws.EligibleCountBounds | analyzer/internal/engine/engine.go:84-89 | the number of eligible rules is at most the number of rules; all count when all are eligible, none when none is |
| EngineLaws.RulesRunBounds | analyzer/internal/engine/engine.go:125 | the count is at most the number of rules; it equals it exactly when all succeed, and is 0 exactly when none does |
| EngineLaws.FailureIsolation | analyzer/internal/engine/engine.go:96-108 | a failing rule contributes exactly one `internal.<id>` error diagnostic on (0,0)-(0,1), tagged "internal", and is not counted; the rules around it are unaffected |
| EngineLaws.SkippedLeavesNoTrace | analyzer/internal/engine/engine.go:84-89 | a skipped rule contributes nothing and is not counted |
| EngineLaws.BackfillNeverOverwrites | analyzer/internal/engine/engine.go:114-122 | back-fill keeps a supplied id, severity or tag list, fills a blank one from the rule (the severity through the configuration) and changes nothing else |
| EngineLaws.ConfiguredSeverityFillsBlank | analyzer/internal/engine/engine.go:117-119 | a diagnostic without a severity gets the rule's non-blank configured severity |
| EngineLaws.BackfillIdempotent | analyzer/internal/engine/engine.go:114-122 | back-filling twice is the same as once |
| EngineLaws.BuiltinBackfillIsComplete | analyzer/internal/engine/engine.go:114-122 | after back-fill by a shipped rule, id, severity and tags are all non-blank |
| EngineLaws.SurvivorsAppend | analyzer/internal/engine/engine.go:110-124 | survivors of concatenated diagnostics are the concatenated survivors |
| EngineLaws.SurvivorsSpec | analyzer/internal/engine/engine.go:110-124 | a diagnostic reaches the output exactly when it is the back-fill of an unsuppressed diagnostic of the rule |
| EngineLaws.NothingSuppressed | analyzer/internal/engine/engine.go:110-124 | with no suppression every diagnostic survives, back-filled, in place |
| EngineLaws.AllSuppressed | analyzer/internal/engine/engine.go:110-113 | if every diagnostic is suppressed nothing survives |
| EngineLaws.SuppressionUsesSuppliedId | analyzer/internal/engine/engine.go:110-116 | suppression is decided on the id the rule supplied, before back-fill; a blank id always survives |
| EngineLaws.AttemptsAppend | analyzer/internal/engine/engine.go:83-126 | the passes over consecutive rule lists concatenate |
| EngineLaws.AttemptsSpec | analyzer/internal/engine/engine.go:83-126 | the i-th pass is that of the i-th rule |
| EngineLaws.RulesRunCounts | analyzer/internal/engine/engine.go:125 | `RulesRun` is the number of rules that ran successfully |
| EngineLaws.SucceededWithinEligible | analyzer/internal/engine/engine.go:84-125 | no more rules succeed than are eligible, and for shipped rules exactly the eligible ones do |
| EngineLaws.ListedBuiltinIsSilenced | analyzer/internal/engine/engine.go:110-113 | a shipped rule whose id a marker lists contributes nothing |
| EngineLaws.UnlistedBuiltinKeepsAll | analyzer/internal/engine/engine.go:110-124 | a shipped, eligible rule that no marker lists contributes all its findings, back-filled, in order |
| EngineLaws.BuiltinContributionFrom | analyzer/internal/engine/engine.go:110-124 | everything a shipped rule contributes is the back-fill of one of its unsuppressed findings |
| EngineLaws.BuiltinContributionIds | analyzer/internal/engine/engine.go:110-124 | everything a shipped rule contributes carries its id |
| EngineLaws.ExplicitSeverityIgnoresConfig | analyzer/internal/engine/engine.go:117-119 | the JavaScript findings of `net.no_timeout` keep severity "info" whatever the configuration says |
| EngineLaws.BlankSourceIsNotAnalysed | analyzer/internal/engine/engine.go:43-51 | a blank source yields an empty output with zero statistics, whatever the parser says |
| EngineLaws.ParseFailureIsReported | analyzer/internal/engine/engine.go:66-79 | a parse failure yields exactly one `internal.parse_error` error on (0,0)-(0,1), tagged "internal", with only the parse time recorded |
| EngineLaws.FailingRuleIsIsolated | analyzer/internal/engine/engine.go:83-126 | in a whole analysis, a failing rule is replaced by its failure diagnostic, is not counted, and the other rules' output is unchanged |
| EngineLaws.RegistrationOrder | analyzer/internal/engine/engine.go:21-30 | the shipped engine registers the four rules in the order errors, net, retry, state |
| EngineLaws.NewEngineOutput | analyzer/internal/engine/engine.go:83-126 | the shipped engine's output is the four rules' contributions in registration order |
| EngineLaws.NewEngineCount | analyzer/internal/engine/engine.go:125 | the shipped engine counts the rules that are enabled and support the language |
| EngineLaws.BuiltinEngineCount | analyzer/internal/engine/engine.go:84-125 | any engine of shipped rules counts exactly the eligible rules |
| EngineLaws.NewEngineEligibility | analyzer/internal/engine/engine.go:84-89 | in the rules loop, with a supported language and nothing disabled all four rules are eligible; with an unsupported language none is (the loop is not reached then, see `EngineLaws.UnsupportedLanguageIsParseError`) |
| EngineLaws.UnsupportedLanguageIsSilent | analyzer/internal/engine/engine.go:87-89 | given a tree, the rules loop skips every shipped rule when the language is unsupported; this is a fact about the loop alone, since the parser gives no tree then |
| EngineLaws.UnsupportedLanguageIsParseError | analyzer/internal/engine/engine.go:54-79 | with a parser that yields a tree only for supported languages (ts.go:52-56), a non-blank source in an unsupported language gets exactly one `internal.parse_error` and no rule runs |
| EngineLaws.ValidatedLanguageIsSupported | analyzer/internal/engine/engine.go:186-197 | after validation every shipped rule supports the request's language |
| EngineLaws.SilencedOutput | analyzer/internal/engine/engine.go:110-113 | a source that lists `errors.swallowed` gets only the other three rules' contributions |
| EngineLaws.OtherRulesIds | analyzer/internal/engine/engine.go:110-124 | everything the other three shipped rules contribute carries an id of another length than `errors.swallowed` |
| EngineLaws.SilencedIds | analyzer/internal/engine/engine.go:110-113 | in that output no id has the length of `errors.swallowed` |
| EngineLaws.ListedErrorsSwallowedIsAbsent | analyzer/internal/engine/engine_test.go:26-30 | a source that lists `errors.swallowed` never gets a diagnostic whose id matches it ignoring case, whatever the parse outcome |
| EngineLaws.ScenarioIsValid | analyzer/internal/engine/engine_test.go:12-21 | the engine test's request passes validation and its source is not blank |
| EngineLaws.SuppressionScenario | analyzer/internal/engine/engine_test.go:10-31 | the engine test's request validates, and no `errors.swallowed` diagnostic reaches its output |

## Findings

| source | as written | input that shows it | evidently intended | confidence | as-written member | corrected member |
|---|---|---|---|---|---|---|
| analyzer/internal/ts/ts.go:40-42 | an explicit language flag is lowercased but not trimmed | `DetectLanguage(" PYTHON ", "example.js")` returns `" python "`, which `Supported` rejects | trim the flag as well, so the result is `python`, as `TestDetectLanguageTrimsAndLowercases` (`analyzer/internal/ts/ts_test.go:5-10`) expects | high, not executed | Ts.FlagIsNotTrimmed | Ts.PaddedFlagIsTrimmed |

No other modelled code calls `DetectLanguage`; the CLI is its only caller, and the
CLI is not part of this model. `Ts.DetectLanguage` therefore keeps the code's
behaviour, and `Ts.DetectLanguageTrimmed` is the corrected definition that the
properties above are proved about.

## Left out

- Parsing (`ts.Parse`, `analyzer/internal/ts/ts.go:51-64`). It calls the
  tree-sitter C library. `Analyze` takes the parse outcome (a tree or an error
  message) as a parameter, so every property holds for whatever the parser
  returns.
- Clocks. `parseMS` and `analyzeMS` are parameters of `Analyze`.
- `runRule` (`engine.go:131-137`). It only forwards `Run`'s result and is folded
  into `Rules.Run`.
- Go's `error` result of `Analyze`. It is always nil and is dropped.
- The CLI (`analyzer/internal/cli/cli.go`) and `main`. They are not part of this
  model. Neither is JSON encoding, including `omitempty` on the output records.
- Byte and character handling. Source bytes are modelled as characters, one per
  byte. `ToLower`, `EqualFold` and `TrimSpace` are modelled for ASCII: case
  folding of non-ASCII letters and Unicode white space beyond the ASCII set are
  not modelled.
- Error messages. They are the same concatenations as the code's `fmt.Sprintf`
  calls. The `%v` formatting of a parser or rule error is an opaque string.
- Nil nodes. A Go nil child or nil `call` is modelled as an absent field or an
  `Option`. A tree never holds nil among its named children.
- Iteration order. `Merge` iterates over Go maps, whose order is unspecified.
  It is modelled with Dafny maps, and since later writes win only between the
  two maps, the order does not matter.
- The diagnostic fields `message`, `explanation` and `docsUrl`. They are carried
  through, but no property is stated about their wording.
- Parse outcomes. `Analysis` and `Analyze` accept any parse outcome for any
  language. The real `ts.Parse` fails for every language `Supported` rejects
  (`analyzer/internal/ts/ts.go:52-56`). That restriction is the predicate
  `EngineLaws.ParsedByRegistry`, which only `EngineLaws.UnsupportedLanguageIsParseError`
  assumes; the other laws hold for every parse outcome.
- Ts.DetectLanguage: its own contract says only that, without a flag, the result
  is blank or a registered language. The exact path cases are stated by
  `Ts.DetectByExtension` (a known extension) and `Ts.UnknownExtensionIsBlank` (an
  unknown or absent one). The flag case is stated by `Ts.FlagOverridesPath` and
  `Ts.PaddedFlagIsUnsupported`.
- RuleBase.Content: its contract gives the length. The characters are stated
  by `RuleBase.ContentIsSpan`.
