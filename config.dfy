/** Per-rule configuration: whether a rule runs and which severity it reports with,
    plus the merge that lays one configuration over another. A setting that leaves
    `enabled` unset or `severity` blank defers to the default. */
module Configuration {
  import opened Wrappers

  /** One rule's settings; `None` stands for Go's nil `*bool`. */
  datatype RuleSetting = RuleSetting(enabled: Option<bool>, severity: string)

  datatype Config = Config(rules: map<string, RuleSetting>)

  const Empty := Config(map[])

  /** `RuleEnabled`: a rule runs unless its setting explicitly disables it. */
  function RuleEnabled(c: Config, ruleId: string): (r: bool)
    ensures !r <==> ruleId in c.rules && c.rules[ruleId].enabled == Some(false)
  {
    if ruleId in c.rules && c.rules[ruleId].enabled.Some? then c.rules[ruleId].enabled.value
    else true
  }

  /** `RuleSeverity`: a non-blank configured severity, otherwise the rule's default. */
  function RuleSeverity(c: Config, ruleId: string, defaultSeverity: string): (r: string)
    ensures ruleId in c.rules && c.rules[ruleId].severity != "" ==> r == c.rules[ruleId].severity
    ensures !(ruleId in c.rules && c.rules[ruleId].severity != "") ==> r == defaultSeverity
    ensures r == "" ==> defaultSeverity == ""
  {
    if ruleId in c.rules && c.rules[ruleId].severity != "" then c.rules[ruleId].severity
    else defaultSeverity
  }

  /** What `Merge` returns: every rule of either configuration, the override's
      setting replacing the base's whole setting where both have one. */
  function Merged(c: Config, override: Config): Config {
    Config(c.rules + override.rules)
  }

  /** `Merge`: copy the base's settings, then the override's, into a fresh map. */
  method Merge(c: Config, override: Config) returns (out: Config)
    ensures out == Merged(c, override)
  {
    var rules: map<string, RuleSetting> := map[];
    var todo := c.rules.Keys;
    while todo != {}
      invariant todo <= c.rules.Keys
      invariant rules.Keys == c.rules.Keys - todo
      invariant forall k :: k in rules ==> rules[k] == c.rules[k]
      decreases todo
    {
      var k :| k in todo;
      rules := rules[k := c.rules[k]];
      todo := todo - {k};
    }
    todo := override.rules.Keys;
    while todo != {}
      invariant todo <= override.rules.Keys
      invariant rules.Keys == c.rules.Keys + (override.rules.Keys - todo)
      invariant forall k :: k in rules ==>
        rules[k] == if k in override.rules && k !in todo then override.rules[k] else c.rules[k]
      decreases todo
    {
      var k :| k in todo;
      rules := rules[k := override.rules[k]];
      todo := todo - {k};
    }
    out := Config(rules);
  }

  /** After a merge, a rule listed in the override is governed by the override alone
      (an override that only sets a severity re-enables a rule the base disabled);
      any other rule keeps the base's behaviour. */
  lemma MergedSettings(c: Config, override: Config, ruleId: string, defaultSeverity: string)
    ensures ruleId in override.rules ==>
      RuleEnabled(Merged(c, override), ruleId) == RuleEnabled(override, ruleId) &&
      RuleSeverity(Merged(c, override), ruleId, defaultSeverity) == RuleSeverity(override, ruleId, defaultSeverity)
    ensures ruleId !in override.rules ==>
      RuleEnabled(Merged(c, override), ruleId) == RuleEnabled(c, ruleId) &&
      RuleSeverity(Merged(c, override), ruleId, defaultSeverity) == RuleSeverity(c, ruleId, defaultSeverity)
  {
  }

  /** A rule nobody configures runs, with its default severity. */
  lemma UnconfiguredDefaults(ruleId: string, defaultSeverity: string)
    ensures RuleEnabled(Empty, ruleId)
    ensures RuleSeverity(Empty, ruleId, defaultSeverity) == defaultSeverity
  {
  }

  /** The empty configuration is a unit of merging on both sides, merging is
      idempotent, and it is associative. */
  lemma MergeLaws(a: Config, b: Config, c: Config)
    ensures Merged(a, Empty) == a && Merged(Empty, a) == a
    ensures Merged(a, a) == a
    ensures Merged(Merged(a, b), c) == Merged(a, Merged(b, c))
  {
    assert a.rules + map[] == a.rules;
    assert map[] + a.rules == a.rules;
    assert a.rules + a.rules == a.rules;
    assert (a.rules + b.rules) + c.rules == a.rules + (b.rules + c.rules);
  }

  /** An override entry replaces the whole setting: a severity-only entry undoes a disable. */
  lemma SeverityOnlyOverrideReenables(ruleId: string)
    ensures !RuleEnabled(Config(map[ruleId := RuleSetting(Some(false), "")]), ruleId)
    ensures RuleEnabled(Merged(Config(map[ruleId := RuleSetting(Some(false), "")]),
                               Config(map[ruleId := RuleSetting(None, "error")])), ruleId)
  {
    MergedSettings(Config(map[ruleId := RuleSetting(Some(false), "")]),
                   Config(map[ruleId := RuleSetting(None, "error")]), ruleId, "");
  }
}
