/** The older rules of lualin/rule.go: the same conventions as the configurable
    rules, with no whitelist, function values always skipped, and findings that do
    not name their rule. */
module LegacyRule {
  import opened Options
  import opened Ast
  import opened Patterns
  import opened Policies
  import opened Findings
  import NameRule

  // ---------------------------------------------------------------- local names

  /** The loop body of `LocalVarName.Validate` for one name and its initialiser. */
  function LocalVarNameCheck(p: Policy, line: int, name: string, init: Expr): Option<LintError>
    requires p.LocalVarName?
  {
    if init.FunctionExpr? then None
    else if !Matches(p.pattern, name) then Some(LintError(None, line, name + " is invalid local var name"))
    else None
  }

  function LocalVarNameChecks(p: Policy, s: Stmt): seq<Option<LintError>>
    requires p.LocalVarName? && s.LocalAssign? && |s.exprs| >= |s.names|
  {
    seq(|s.names|, i requires 0 <= i < |s.names| => LocalVarNameCheck(p, s.line, s.names[i], s.exprs[i]))
  }

  /** What `LocalVarName.Validate` returns: always a collection. */
  function LocalVarNameResult(p: Policy, s: Stmt): (e: Error)
    requires p.LocalVarName?
    requires s.LocalAssign? ==> |s.exprs| >= |s.names|
    ensures e.LintErrs?
    ensures !s.LocalAssign? ==> e.errs == []
    ensures s.LocalAssign? ==> |e.errs| <= |s.names|
  {
    if s.LocalAssign? then LintErrs(Present(LocalVarNameChecks(p, s))) else LintErrs([])
  }

  method LocalVarNameValidate(p: Policy, s: Stmt) returns (e: Error)
    requires p.LocalVarName?
    requires s.LocalAssign? ==> |s.exprs| >= |s.names|
    ensures e == LocalVarNameResult(p, s)
  {
    var errs: seq<LintError> := [];
    if s.LocalAssign? {
      ghost var checks := LocalVarNameChecks(p, s);
      for i := 0 to |s.names|
        invariant errs == Present(checks[..i])
      {
        PresentStep(checks, i);
        var name := s.names[i];
        if s.exprs[i].FunctionExpr? {
          continue;
        }
        if !Matches(p.pattern, name) {
          errs := errs + [LintError(None, s.line, name + " is invalid local var name")];
        }
      }
      assert checks[..|s.names|] == checks;
    }
    e := LintErrs(errs);
  }

  /** A local assignment yields a finding exactly for each name not bound to a
      function value that fails the pattern. */
  lemma LocalVarNameReports(p: Policy, s: Stmt, f: LintError)
    requires p.LocalVarName? && s.LocalAssign? && |s.exprs| >= |s.names|
    ensures f in LocalVarNameResult(p, s).errs <==>
      exists i :: 0 <= i < |s.names|
        && !s.exprs[i].FunctionExpr?
        && !Matches(p.pattern, s.names[i])
        && f == LintError(None, s.line, s.names[i] + " is invalid local var name")
  {
    var checks := LocalVarNameChecks(p, s);
    PresentMember(checks, f);
    if f in LocalVarNameResult(p, s).errs {
      var i :| 0 <= i < |checks| && checks[i] == Some(f);
      assert LocalVarNameCheck(p, s.line, s.names[i], s.exprs[i]) == Some(f);
    } else {
      forall i | 0 <= i < |s.names|
        ensures LocalVarNameCheck(p, s.line, s.names[i], s.exprs[i]) != Some(f)
      {
        assert checks[i] == LocalVarNameCheck(p, s.line, s.names[i], s.exprs[i]);
      }
    }
  }

  /** The older local rule is the configurable one with function skipping on and
      an empty whitelist, except that its findings name no rule. */
  lemma LocalVarNameAgrees(pattern: Pattern, level: RuleLevel, s: Stmt)
    requires s.LocalAssign? ==> |s.exprs| >= |s.names|
    ensures LocalVarNameResult(LocalVarName(pattern), s).errs
         == Unattributed(NameRule.LocalVarNameRuleResult(LocalVarNameRule(pattern, true, [], level), s).errs)
  {
    if s.LocalAssign? {
      var q := LocalVarNameRule(pattern, true, [], level);
      var xs := NameRule.LocalVarNameChecks(q, s);
      var ys := LocalVarNameChecks(LocalVarName(pattern), s);
      forall i | 0 <= i < |xs|
        ensures ys[i] == UnattributedCheck(xs[i])
      {
        assert !MatchWhiteList([], s.names[i]);
      }
      PresentUnattributed(xs, ys);
    }
  }

  // --------------------------------------------------------------- global names

  /** The loop body of `GlobalVarName.Validate` for one assignment target. */
  function GlobalVarNameCheck(p: Policy, line: int, lh: Expr): Option<LintError>
    requires p.GlobalVarName?
  {
    if lh.IdentExpr? && !Matches(p.pattern, lh.value) then
      Some(LintError(None, line, lh.value + " is invalid global var name"))
    else None
  }

  function GlobalVarNameChecks(p: Policy, s: Stmt): seq<Option<LintError>>
    requires p.GlobalVarName? && s.Assign?
  {
    seq(|s.lhs|, i requires 0 <= i < |s.lhs| => GlobalVarNameCheck(p, s.line, s.lhs[i]))
  }

  /** What `GlobalVarName.Validate` returns: always a collection. */
  function GlobalVarNameResult(p: Policy, s: Stmt): (e: Error)
    requires p.GlobalVarName?
    ensures e.LintErrs?
    ensures !s.Assign? ==> e.errs == []
    ensures s.Assign? ==> |e.errs| <= |s.lhs|
  {
    if s.Assign? then LintErrs(Present(GlobalVarNameChecks(p, s))) else LintErrs([])
  }

  method GlobalVarNameValidate(p: Policy, s: Stmt) returns (e: Error)
    requires p.GlobalVarName?
    ensures e == GlobalVarNameResult(p, s)
  {
    var errs: seq<LintError> := [];
    if s.Assign? {
      ghost var checks := GlobalVarNameChecks(p, s);
      for i := 0 to |s.lhs|
        invariant errs == Present(checks[..i])
      {
        PresentStep(checks, i);
        var lh := s.lhs[i];
        if lh.IdentExpr? && !Matches(p.pattern, lh.value) {
          errs := errs + [LintError(None, s.line, lh.value + " is invalid global var name")];
        }
      }
      assert checks[..|s.lhs|] == checks;
    }
    e := LintErrs(errs);
  }

  /** An assignment yields a finding exactly for each identifier target that fails
      the pattern. */
  lemma GlobalVarNameReports(p: Policy, s: Stmt, f: LintError)
    requires p.GlobalVarName? && s.Assign?
    ensures f in GlobalVarNameResult(p, s).errs <==>
      exists i :: 0 <= i < |s.lhs|
        && s.lhs[i].IdentExpr?
        && !Matches(p.pattern, s.lhs[i].value)
        && f == LintError(None, s.line, s.lhs[i].value + " is invalid global var name")
  {
    var checks := GlobalVarNameChecks(p, s);
    PresentMember(checks, f);
    if f in GlobalVarNameResult(p, s).errs {
      var i :| 0 <= i < |checks| && checks[i] == Some(f);
      assert GlobalVarNameCheck(p, s.line, s.lhs[i]) == Some(f);
    } else {
      forall i | 0 <= i < |s.lhs|
        ensures GlobalVarNameCheck(p, s.line, s.lhs[i]) != Some(f)
      {
        assert checks[i] == GlobalVarNameCheck(p, s.line, s.lhs[i]);
      }
    }
  }

  /** The older global rule is the configurable one with an empty whitelist, except
      that its findings name no rule. */
  lemma GlobalVarNameAgrees(pattern: Pattern, level: RuleLevel, s: Stmt)
    ensures GlobalVarNameResult(GlobalVarName(pattern), s).errs
         == Unattributed(NameRule.GlobalVarNameRuleResult(GlobalVarNameRule(pattern, [], level), s).errs)
  {
    if s.Assign? {
      var q := GlobalVarNameRule(pattern, [], level);
      var xs := NameRule.GlobalVarNameChecks(q, s);
      var ys := GlobalVarNameChecks(GlobalVarName(pattern), s);
      forall i | 0 <= i < |xs|
        ensures ys[i] == UnattributedCheck(xs[i])
      {
        if s.lhs[i].IdentExpr? {
          assert !MatchWhiteList([], s.lhs[i].value);
        }
      }
      PresentUnattributed(xs, ys);
    }
  }

  // ------------------------------------------------------------- function names

  /** `FuncName.Validate`: at most one finding, for a function defined under a plain
      identifier that fails the pattern; nil otherwise. */
  function FuncNameResult(p: Policy, s: Stmt): (e: Error)
    requires p.FuncName?
    ensures e.Nil? || e.LintErr?
    ensures e.LintErr? <==> s.FuncDef? && s.func.IdentExpr? && !Matches(p.pattern, s.func.value)
    ensures e.LintErr? ==> e.err == LintError(None, s.line, s.func.value + " is invalid func name")
  {
    if s.FuncDef? && s.func.IdentExpr? && !Matches(p.pattern, s.func.value) then
      LintErr(LintError(None, s.line, s.func.value + " is invalid func name"))
    else Nil
  }

  /** The older function rule is the configurable one with an empty whitelist,
      except that its finding names no rule. */
  lemma FuncNameAgrees(pattern: Pattern, level: RuleLevel, s: Stmt)
    ensures var e := NameRule.FuncNameRuleResult(FuncNameRule(pattern, [], level), s);
      FuncNameResult(FuncName(pattern), s) == if e.LintErr? then LintErr(e.err.(rule := None)) else e
  {
    if s.FuncDef? && s.func.IdentExpr? {
      assert !MatchWhiteList([], s.func.value);
    }
  }
}
