/** The configuration of each rule type of the linter: the fields of the rule
    structs. None of them is changed after construction. */
module Policies {
  import opened Patterns

  /** A rule's severity. Its definition is not part of this model; it is only
      stored in a rule and handed back by `Level`. */
  type RuleLevel = int

  /** The zero value the default rules leave in their `RuleLevel` field. */
  const ZeroLevel: RuleLevel := 0

  datatype Policy =
      /** lualin/name_rule.go:10-15 */
    | LocalVarNameRule(pattern: Pattern, funcSkip: bool, whiteList: seq<Pattern>, ruleLevel: RuleLevel)
      /** lualin/name_rule.go:52-56 */
    | GlobalVarNameRule(pattern: Pattern, whiteList: seq<Pattern>, ruleLevel: RuleLevel)
      /** lualin/name_rule.go:89-93 */
    | FuncNameRule(pattern: Pattern, whiteList: seq<Pattern>, ruleLevel: RuleLevel)
      /** lualin/var_rule.go:10-13 */
    | NoGlobalVarRule(whiteList: seq<Pattern>, ruleLevel: RuleLevel)
      /** The older rules of lualin/rule.go:20-22, 49-51, 75-77, without whitelist or level. */
    | LocalVarName(pattern: Pattern)
    | GlobalVarName(pattern: Pattern)
    | FuncName(pattern: Pattern)
      /** The rules of src/lualin/rule.go:20-22 and 56-58. */
    | VarName(pattern: Pattern)
    | SrcFuncName(pattern: Pattern)
  {
    /** The rule types that carry a level and name themselves in their findings. */
    predicate HasLevel()
    {
      LocalVarNameRule? || GlobalVarNameRule? || FuncNameRule? || NoGlobalVarRule?
    }

    /** The `Level` methods of the four rule types that have one: the level the
        rule was configured with. */
    function Level(): (l: RuleLevel)
      requires HasLevel()
      ensures this.(ruleLevel := l) == this
    {
      ruleLevel
    }
  }
}
