/** The rule of lualin/var_rule.go that forbids assigning global variables except
    to whitelisted names, whatever their spelling. */
module VarRule {
  import opened Options
  import opened Ast
  import opened Patterns
  import opened Policies
  import opened Findings

  /** What `NoGlobalVarRule.validate` returns for one identifier target. */
  function NoGlobalVarCheck(p: Policy, line: int, name: string): Option<LintError>
    requires p.NoGlobalVarRule?
  {
    if MatchWhiteList(p.whiteList, name) then None
    else Some(LintError(Some(p), line, name + " is invalid global var"))
  }

  /** `NoGlobalVarRule.validate`: searches the whitelist and stops at the first
      pattern that matches; the name is reported only when none does. */
  method NoGlobalVarRuleValidateName(p: Policy, line: int, name: string) returns (f: Option<LintError>)
    requires p.NoGlobalVarRule?
    ensures f.None? <==> exists j :: 0 <= j < |p.whiteList| && Matches(p.whiteList[j], name)
    ensures f.Some? ==> f.value == LintError(Some(p), line, name + " is invalid global var")
  {
    for i := 0 to |p.whiteList|
      invariant forall j :: 0 <= j < i ==> !Matches(p.whiteList[j], name)
    {
      if Matches(p.whiteList[i], name) {
        return None;
      }
    }
    return Some(LintError(Some(p), line, name + " is invalid global var"));
  }

  /** The loop body of `NoGlobalVarRule.Validate` for one assignment target. */
  function NoGlobalVarTargetCheck(p: Policy, line: int, lh: Expr): Option<LintError>
    requires p.NoGlobalVarRule?
  {
    if lh.IdentExpr? then NoGlobalVarCheck(p, line, lh.value) else None
  }

  function NoGlobalVarChecks(p: Policy, s: Stmt): seq<Option<LintError>>
    requires p.NoGlobalVarRule? && s.Assign?
  {
    seq(|s.lhs|, i requires 0 <= i < |s.lhs| => NoGlobalVarTargetCheck(p, s.line, s.lhs[i]))
  }

  /** What `NoGlobalVarRule.Validate` returns: always a collection. */
  function NoGlobalVarRuleResult(p: Policy, s: Stmt): (e: Error)
    requires p.NoGlobalVarRule?
    ensures e.LintErrs?
    ensures !s.Assign? ==> e.errs == []
    ensures s.Assign? ==> |e.errs| <= |s.lhs|
  {
    if s.Assign? then LintErrs(Present(NoGlobalVarChecks(p, s))) else LintErrs([])
  }

  method NoGlobalVarRuleValidate(p: Policy, s: Stmt) returns (e: Error)
    requires p.NoGlobalVarRule?
    ensures e == NoGlobalVarRuleResult(p, s)
  {
    var errs: seq<LintError> := [];
    if s.Assign? {
      ghost var checks := NoGlobalVarChecks(p, s);
      for i := 0 to |s.lhs|
        invariant errs == Present(checks[..i])
      {
        PresentStep(checks, i);
        var lh := s.lhs[i];
        if lh.IdentExpr? {
          var err := NoGlobalVarRuleValidateName(p, s.line, lh.value);
          if err.Some? {
            errs := errs + [err.value];
          }
        }
      }
      assert checks[..|s.lhs|] == checks;
    }
    e := LintErrs(errs);
  }

  /** An assignment yields a finding exactly for each identifier target that no
      whitelist pattern matches; other targets are ignored. */
  lemma NoGlobalVarRuleReports(p: Policy, s: Stmt, f: LintError)
    requires p.NoGlobalVarRule? && s.Assign?
    ensures f in NoGlobalVarRuleResult(p, s).errs <==>
      exists i :: 0 <= i < |s.lhs|
        && s.lhs[i].IdentExpr?
        && !MatchWhiteList(p.whiteList, s.lhs[i].value)
        && f == LintError(Some(p), s.line, s.lhs[i].value + " is invalid global var")
  {
    var checks := NoGlobalVarChecks(p, s);
    PresentMember(checks, f);
    if f in NoGlobalVarRuleResult(p, s).errs {
      var i :| 0 <= i < |checks| && checks[i] == Some(f);
      assert NoGlobalVarTargetCheck(p, s.line, s.lhs[i]) == Some(f);
    } else {
      forall i | 0 <= i < |s.lhs|
        ensures NoGlobalVarTargetCheck(p, s.line, s.lhs[i]) != Some(f)
      {
        assert checks[i] == NoGlobalVarTargetCheck(p, s.line, s.lhs[i]);
      }
    }
  }

  /** With an empty whitelist, every identifier target is reported. */
  lemma NoGlobalVarRuleEmptyWhiteList(p: Policy, s: Stmt)
    requires p.NoGlobalVarRule? && p.whiteList == [] && s.Assign?
    ensures forall i :: 0 <= i < |s.lhs| && s.lhs[i].IdentExpr? ==>
      LintError(Some(p), s.line, s.lhs[i].value + " is invalid global var") in NoGlobalVarRuleResult(p, s).errs
  {
    forall i | 0 <= i < |s.lhs| && s.lhs[i].IdentExpr?
      ensures LintError(Some(p), s.line, s.lhs[i].value + " is invalid global var") in NoGlobalVarRuleResult(p, s).errs
    {
      NoGlobalVarRuleReports(p, s, LintError(Some(p), s.line, s.lhs[i].value + " is invalid global var"));
    }
  }

  /** Findings follow the order of the targets. */
  lemma NoGlobalVarRuleInOrder(p: Policy, line: int, lhs1: seq<Expr>, lhs2: seq<Expr>)
    requires p.NoGlobalVarRule?
    ensures NoGlobalVarRuleResult(p, Assign(line, lhs1 + lhs2)).errs
         == NoGlobalVarRuleResult(p, Assign(line, lhs1)).errs + NoGlobalVarRuleResult(p, Assign(line, lhs2)).errs
  {
    var a := NoGlobalVarChecks(p, Assign(line, lhs1));
    var b := NoGlobalVarChecks(p, Assign(line, lhs2));
    assert NoGlobalVarChecks(p, Assign(line, lhs1 + lhs2)) == a + b;
    PresentAppend(a, b);
  }
}
