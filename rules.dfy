/** The `Rule` interface (lualin/rule.go:10-18, and its copy in src/lualin/rule.go):
    a rule is one of the built-in rule types or a plain function adapted by
    `RuleFunc`. */
module Rules {
  import opened Options
  import opened Ast
  import opened Policies
  import opened Findings
  import NameRule
  import VarRule
  import LegacyRule
  import SrcRule

  datatype Rule =
    | Builtin(policy: Policy)
      /** `RuleFunc`: any function from a statement to an error. */
    | Custom(validate: Stmt -> Error)

  /** The two local-name rules index `Exprs[i]` for every name. */
  predicate ReadsInitializers(r: Rule)
  {
    r.Builtin? && (r.policy.LocalVarNameRule? || r.policy.LocalVarName?)
  }

  /** The rule can run on the statement without indexing past its initialisers. */
  predicate Defined(r: Rule, s: Stmt)
  {
    ReadsInitializers(r) && s.LocalAssign? ==> |s.exprs| >= |s.names|
  }

  /** `Rule.Validate`. A `RuleFunc` returns what its function returns; a built-in
      rule never fails with anything but findings. */
  function Validate(r: Rule, s: Stmt): (e: Error)
    requires Defined(r, s)
    ensures r.Custom? ==> e == r.validate(s)
    ensures r.Builtin? ==> !e.Foreign?
  {
    match r
    case Custom(f) => f(s)
    case Builtin(p) =>
      match p
      case LocalVarNameRule(_, _, _, _) => NameRule.LocalVarNameRuleResult(p, s)
      case GlobalVarNameRule(_, _, _) => NameRule.GlobalVarNameRuleResult(p, s)
      case FuncNameRule(_, _, _) => NameRule.FuncNameRuleResult(p, s)
      case NoGlobalVarRule(_, _) => VarRule.NoGlobalVarRuleResult(p, s)
      case LocalVarName(_) => LegacyRule.LocalVarNameResult(p, s)
      case GlobalVarName(_) => LegacyRule.GlobalVarNameResult(p, s)
      case FuncName(_) => LegacyRule.FuncNameResult(p, s)
      case VarName(_) => SrcRule.VarNameResult(p, s)
      case SrcFuncName(_) => SrcRule.SrcFuncNameResult(p, s)
  }

  /** Dynamic dispatch of `r.Validate(l, stmt)` to the rule type's method. */
  method ValidateRule(r: Rule, s: Stmt) returns (e: Error)
    requires Defined(r, s)
    ensures e == Validate(r, s)
  {
    match r {
      case Custom(f) =>
        e := f(s);
      case Builtin(p) =>
        match p {
          case LocalVarNameRule(_, _, _, _) => e := NameRule.LocalVarNameRuleValidate(p, s);
          case GlobalVarNameRule(_, _, _) => e := NameRule.GlobalVarNameRuleValidate(p, s);
          case FuncNameRule(_, _, _) => e := NameRule.FuncNameRuleResult(p, s);
          case NoGlobalVarRule(_, _) => e := VarRule.NoGlobalVarRuleValidate(p, s);
          case LocalVarName(_) => e := LegacyRule.LocalVarNameValidate(p, s);
          case GlobalVarName(_) => e := LegacyRule.GlobalVarNameValidate(p, s);
          case FuncName(_) => e := LegacyRule.FuncNameResult(p, s);
          case VarName(_) => e := SrcRule.VarNameValidate(p, s);
          case SrcFuncName(_) => e := SrcRule.SrcFuncNameResult(p, s);
        }
    }
  }

  /** The level is for the caller only: a rule configured with another level
      reports the same findings, up to the rule reference they carry. */
  lemma LevelIrrelevant(p: Policy, level: RuleLevel, s: Stmt)
    requires p.HasLevel() && Defined(Builtin(p), s)
    ensures Defined(Builtin(p.(ruleLevel := level)), s)
    ensures p.(ruleLevel := level).Level() == level
    ensures Validate(Builtin(p.(ruleLevel := level)), s).Nil? <==> Validate(Builtin(p), s).Nil?
    ensures Validate(Builtin(p.(ruleLevel := level)), s).LintErrs? <==> Validate(Builtin(p), s).LintErrs?
    ensures Unattributed(Adds(Validate(Builtin(p.(ruleLevel := level)), s)))
         == Unattributed(Adds(Validate(Builtin(p), s)))
  {
    var q := p.(ruleLevel := level);
    if p.LocalVarNameRule? && s.LocalAssign? {
      var xs := NameRule.LocalVarNameChecks(p, s);
      var ys := NameRule.LocalVarNameChecks(q, s);
      var zs := seq(|xs|, i requires 0 <= i < |xs| => UnattributedCheck(xs[i]));
      PresentUnattributed(xs, zs);
      PresentUnattributed(ys, zs);
    } else if p.GlobalVarNameRule? && s.Assign? {
      var xs := NameRule.GlobalVarNameChecks(p, s);
      var ys := NameRule.GlobalVarNameChecks(q, s);
      var zs := seq(|xs|, i requires 0 <= i < |xs| => UnattributedCheck(xs[i]));
      PresentUnattributed(xs, zs);
      PresentUnattributed(ys, zs);
    } else if p.NoGlobalVarRule? && s.Assign? {
      var xs := VarRule.NoGlobalVarChecks(p, s);
      var ys := VarRule.NoGlobalVarChecks(q, s);
      var zs := seq(|xs|, i requires 0 <= i < |xs| => UnattributedCheck(xs[i]));
      PresentUnattributed(xs, zs);
      PresentUnattributed(ys, zs);
    }
  }

  /** Every finding of a built-in rule carries the line of the statement it was
      found on, and names the rule that produced it exactly when the rule type has
      a level to look up; the older rules leave the rule unset. */
  lemma BuiltinProvenance(p: Policy, s: Stmt, f: LintError)
    requires Defined(Builtin(p), s)
    requires f in Adds(Validate(Builtin(p), s))
    ensures f.line == s.line
    ensures f.rule == if p.HasLevel() then Some(p) else None
  {
    match p
    case LocalVarNameRule(_, _, _, _) =>
      NameRule.LocalVarNameRuleReports(p, s, f);
    case GlobalVarNameRule(_, _, _) =>
      NameRule.GlobalVarNameRuleReports(p, s, f);
    case FuncNameRule(_, _, _) =>
    case NoGlobalVarRule(_, _) =>
      VarRule.NoGlobalVarRuleReports(p, s, f);
    case LocalVarName(_) =>
      LegacyRule.LocalVarNameReports(p, s, f);
    case GlobalVarName(_) =>
      LegacyRule.GlobalVarNameReports(p, s, f);
    case FuncName(_) =>
    case VarName(_) =>
      if s.Assign? {
        SrcRule.VarNameReportsTargets(p, s, f);
      } else if s.LocalAssign? {
        SrcRule.VarNameReportsLocals(p, s, f);
      }
    case SrcFuncName(_) =>
  }
}
