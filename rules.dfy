/** The `Rule` interface and the registry's view of a rule: its id, metadata,
    language support and the outcome of running it. */
module Rules {
  import opened Wrappers
  import opened Diagnostics
  import opened SyntaxTree
  import opened RuleBase
  import Ts
  import ErrorsSwallowed
  import NetNoTimeout
  import RetryUnbounded
  import StateGlobalMutable

  /** A rule: one of the four shipped detectors, or `Other`, any further
      implementation of the interface given by its four methods. Only `Other`
      can fail. */
  datatype Rule =
    | ErrorsSwallowedRule
    | NetNoTimeoutRule
    | RetryUnboundedRule
    | StateGlobalMutableRule
    | Other(id: string, meta: RuleMeta, supports: string -> bool,
            run: Context -> Result<seq<Diagnostic>, string>)

  predicate IsBuiltin(r: Rule) {
    !r.Other?
  }

  function ID(r: Rule): string {
    match r
    case ErrorsSwallowedRule => ErrorsSwallowed.ID
    case NetNoTimeoutRule => NetNoTimeout.ID
    case RetryUnboundedRule => RetryUnbounded.ID
    case StateGlobalMutableRule => StateGlobalMutable.ID
    case Other(id, _, _, _) => id
  }

  function Meta(r: Rule): RuleMeta {
    match r
    case ErrorsSwallowedRule => ErrorsSwallowed.Meta()
    case NetNoTimeoutRule => NetNoTimeout.Meta()
    case RetryUnboundedRule => RetryUnbounded.Meta()
    case StateGlobalMutableRule => StateGlobalMutable.Meta()
    case Other(_, meta, _, _) => meta
  }

  predicate Supports(r: Rule, language: string) {
    match r
    case ErrorsSwallowedRule => ErrorsSwallowed.Supports(language)
    case NetNoTimeoutRule => NetNoTimeout.Supports(language)
    case RetryUnboundedRule => RetryUnbounded.Supports(language)
    case StateGlobalMutableRule => StateGlobalMutable.Supports(language)
    case Other(_, _, supports, _) => supports(language)
  }

  /** The outcome of `Run`: the shipped rules always succeed, with diagnostics that
      carry their own id. */
  function RunResult(r: Rule, ctx: Context): (res: Result<seq<Diagnostic>, string>)
    requires WellFormed(ctx.source, ctx.root)
    ensures IsBuiltin(r) ==> res.Success?
    ensures IsBuiltin(r) ==> forall x :: x in res.value ==> x.ruleId == ID(r)
  {
    match r
    case ErrorsSwallowedRule => Success(ErrorsSwallowed.Detected(ctx))
    case NetNoTimeoutRule => Success(NetNoTimeout.Detected(ctx))
    case RetryUnboundedRule => Success(RetryUnbounded.Detected(ctx))
    case StateGlobalMutableRule =>
      StateGlobalMutable.DetectedShape(ctx);
      Success(StateGlobalMutable.Detected(ctx))
    case Other(_, _, _, run) => run(ctx)
  }

  /** Dispatches to the rule's own `Run`. */
  method Run(r: Rule, ctx: Context) returns (res: Result<seq<Diagnostic>, string>)
    requires WellFormed(ctx.source, ctx.root)
    ensures res == RunResult(r, ctx)
  {
    match r {
      case ErrorsSwallowedRule =>
        var diags := ErrorsSwallowed.Run(ctx);
        res := Success(diags);
      case NetNoTimeoutRule =>
        var diags := NetNoTimeout.Run(ctx);
        res := Success(diags);
      case RetryUnboundedRule =>
        var diags := RetryUnbounded.Run(ctx);
        res := Success(diags);
      case StateGlobalMutableRule =>
        var diags := StateGlobalMutable.Run(ctx);
        res := Success(diags);
      case Other(_, _, _, run) =>
        res := run(ctx);
    }
  }

  /** A shipped rule supports exactly the languages `ts.Supported` accepts. */
  lemma BuiltinSupported(r: Rule, language: string)
    requires IsBuiltin(r)
    ensures Supports(r, language) <==> Ts.Supported(language)
  {
    SupportedIffDialect(language);
  }

  /** The shipped rules support exactly the languages the parser registry knows,
      and on any other language they report nothing. */
  lemma BuiltinSupport(r: Rule, ctx: Context)
    requires IsBuiltin(r)
    requires WellFormed(ctx.source, ctx.root)
    ensures Supports(r, ctx.language) <==> Ts.Supported(ctx.language)
    ensures !Supports(r, ctx.language) ==> RunResult(r, ctx) == Success([])
  {
    SupportedIffDialect(ctx.language);
  }
}
