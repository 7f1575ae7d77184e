/** The configurable naming rules of lualin/name_rule.go: local variable names,
    global variable names and function names, each with a whitelist. */
module NameRule {
  import opened Options
  import opened Ast
  import opened Patterns
  import opened Policies
  import opened Findings

  // ---------------------------------------------------------------- local names

  /** The loop body of `LocalVarNameRule.Validate` for one name and its initialiser. */
  function LocalVarNameCheck(p: Policy, line: int, name: string, init: Expr): Option<LintError>
    requires p.LocalVarNameRule?
  {
    if p.funcSkip && init.FunctionExpr? then None
    else if MatchWhiteList(p.whiteList, name) then None
    else if !Matches(p.pattern, name) then Some(LintError(Some(p), line, name + " is invalid local var name"))
    else None
  }

  function LocalVarNameChecks(p: Policy, s: Stmt): seq<Option<LintError>>
    requires p.LocalVarNameRule? && s.LocalAssign? && |s.exprs| >= |s.names|
  {
    seq(|s.names|, i requires 0 <= i < |s.names| => LocalVarNameCheck(p, s.line, s.names[i], s.exprs[i]))
  }

  /** What `LocalVarNameRule.Validate` returns: always a collection, since its
      `len(errs) >= 0` test always holds. `Exprs[i]` is read for every name, so a
      local assignment must have an initialiser for each name. */
  function LocalVarNameRuleResult(p: Policy, s: Stmt): (e: Error)
    requires p.LocalVarNameRule?
    requires s.LocalAssign? ==> |s.exprs| >= |s.names|
    ensures e.LintErrs?
    ensures !s.LocalAssign? ==> e.errs == []
    ensures s.LocalAssign? ==> |e.errs| <= |s.names|
  {
    if s.LocalAssign? then LintErrs(Present(LocalVarNameChecks(p, s))) else LintErrs([])
  }

  method LocalVarNameRuleValidate(p: Policy, s: Stmt) returns (e: Error)
    requires p.LocalVarNameRule?
    requires s.LocalAssign? ==> |s.exprs| >= |s.names|
    ensures e == LocalVarNameRuleResult(p, s)
  {
    var errs: seq<LintError> := [];
    if s.LocalAssign? {
      ghost var checks := LocalVarNameChecks(p, s);
      for i := 0 to |s.names|
        invariant errs == Present(checks[..i])
      {
        PresentStep(checks, i);
        var name := s.names[i];
        if p.funcSkip && s.exprs[i].FunctionExpr? {
          continue;
        }
        if MatchWhiteList(p.whiteList, name) {
          continue;
        }
        if !Matches(p.pattern, name) {
          errs := errs + [LintError(Some(p), s.line, name + " is invalid local var name")];
        }
      }
      assert checks[..|s.names|] == checks;
    }
    e := LintErrs(errs);
  }

  /** A local assignment yields a finding exactly for each name that is not bound to
      a function while function values are skipped, is not whitelisted and does not
      match the pattern. */
  lemma LocalVarNameRuleReports(p: Policy, s: Stmt, f: LintError)
    requires p.LocalVarNameRule? && s.LocalAssign? && |s.exprs| >= |s.names|
    ensures f in LocalVarNameRuleResult(p, s).errs <==>
      exists i :: 0 <= i < |s.names|
        && !(p.funcSkip && s.exprs[i].FunctionExpr?)
        && !MatchWhiteList(p.whiteList, s.names[i])
        && !Matches(p.pattern, s.names[i])
        && f == LintError(Some(p), s.line, s.names[i] + " is invalid local var name")
  {
    var checks := LocalVarNameChecks(p, s);
    PresentMember(checks, f);
    if f in LocalVarNameRuleResult(p, s).errs {
      var i :| 0 <= i < |checks| && checks[i] == Some(f);
      assert LocalVarNameCheck(p, s.line, s.names[i], s.exprs[i]) == Some(f);
    } else {
      forall i | 0 <= i < |s.names|
        ensures LocalVarNameCheck(p, s.line, s.names[i], s.exprs[i]) != Some(f)
      {
        assert checks[i] == LocalVarNameCheck(p, s.line, s.names[i], s.exprs[i]);
      }
    }
  }

  /** Findings follow the order of the names. */
  lemma LocalVarNameRuleInOrder(p: Policy, line: int, names1: seq<string>, exprs1: seq<Expr>,
                                names2: seq<string>, exprs2: seq<Expr>)
    requires p.LocalVarNameRule? && |exprs1| == |names1| && |exprs2| >= |names2|
    ensures LocalVarNameRuleResult(p, LocalAssign(line, names1 + names2, exprs1 + exprs2)).errs
         == LocalVarNameRuleResult(p, LocalAssign(line, names1, exprs1)).errs
          + LocalVarNameRuleResult(p, LocalAssign(line, names2, exprs2)).errs
  {
    var a := LocalVarNameChecks(p, LocalAssign(line, names1, exprs1));
    var b := LocalVarNameChecks(p, LocalAssign(line, names2, exprs2));
    assert LocalVarNameChecks(p, LocalAssign(line, names1 + names2, exprs1 + exprs2)) == a + b;
    PresentAppend(a, b);
  }

  /** A whitelisted name, and with function skipping a name bound only to function
      values, is never reported, whatever its spelling. */
  lemma LocalVarNameRuleExempt(p: Policy, s: Stmt, name: string)
    requires p.LocalVarNameRule? && s.LocalAssign? && |s.exprs| >= |s.names|
    requires MatchWhiteList(p.whiteList, name)
          || (p.funcSkip && forall i :: 0 <= i < |s.names| && s.names[i] == name ==> s.exprs[i].FunctionExpr?)
    ensures forall f :: f in LocalVarNameRuleResult(p, s).errs ==> f.message != name + " is invalid local var name"
  {
    forall f | f in LocalVarNameRuleResult(p, s).errs
      ensures f.message != name + " is invalid local var name"
    {
      LocalVarNameRuleReports(p, s, f);
      var i :| 0 <= i < |s.names|
        && !(p.funcSkip && s.exprs[i].FunctionExpr?)
        && !MatchWhiteList(p.whiteList, s.names[i])
        && !Matches(p.pattern, s.names[i])
        && f == LintError(Some(p), s.line, s.names[i] + " is invalid local var name");
      if f.message == name + " is invalid local var name" {
        SameTemplate(s.names[i], name, " is invalid local var name");
      }
    }
  }

  // --------------------------------------------------------------- global names

  /** The loop body of `GlobalVarNameRule.Validate` for one assignment target. */
  function GlobalVarNameCheck(p: Policy, line: int, lh: Expr): Option<LintError>
    requires p.GlobalVarNameRule?
  {
    if lh.IdentExpr? && !Matches(p.pattern, lh.value) then
      if MatchWhiteList(p.whiteList, lh.value) then None
      else Some(LintError(Some(p), line, lh.value + " is invalid global var name"))
    else None
  }

  function GlobalVarNameChecks(p: Policy, s: Stmt): seq<Option<LintError>>
    requires p.GlobalVarNameRule? && s.Assign?
  {
    seq(|s.lhs|, i requires 0 <= i < |s.lhs| => GlobalVarNameCheck(p, s.line, s.lhs[i]))
  }

  /** What `GlobalVarNameRule.Validate` returns: always a collection. */
  function GlobalVarNameRuleResult(p: Policy, s: Stmt): (e: Error)
    requires p.GlobalVarNameRule?
    ensures e.LintErrs?
    ensures !s.Assign? ==> e.errs == []
    ensures s.Assign? ==> |e.errs| <= |s.lhs|
  {
    if s.Assign? then LintErrs(Present(GlobalVarNameChecks(p, s))) else LintErrs([])
  }

  method GlobalVarNameRuleValidate(p: Policy, s: Stmt) returns (e: Error)
    requires p.GlobalVarNameRule?
    ensures e == GlobalVarNameRuleResult(p, s)
  {
    var errs: seq<LintError> := [];
    if s.Assign? {
      ghost var checks := GlobalVarNameChecks(p, s);
      for i := 0 to |s.lhs|
        invariant errs == Present(checks[..i])
      {
        PresentStep(checks, i);
        var lh := s.lhs[i];
        if lh.IdentExpr? && !Matches(p.pattern, lh.value) {
          if MatchWhiteList(p.whiteList, lh.value) {
            continue;
          }
          errs := errs + [LintError(Some(p), s.line, lh.value + " is invalid global var name")];
        }
      }
      assert checks[..|s.lhs|] == checks;
    }
    e := LintErrs(errs);
  }

  /** An assignment yields a finding exactly for each identifier target that does
      not match the pattern and is not whitelisted; other targets are ignored. */
  lemma GlobalVarNameRuleReports(p: Policy, s: Stmt, f: LintError)
    requires p.GlobalVarNameRule? && s.Assign?
    ensures f in GlobalVarNameRuleResult(p, s).errs <==>
      exists i :: 0 <= i < |s.lhs|
        && s.lhs[i].IdentExpr?
        && !Matches(p.pattern, s.lhs[i].value)
        && !MatchWhiteList(p.whiteList, s.lhs[i].value)
        && f == LintError(Some(p), s.line, s.lhs[i].value + " is invalid global var name")
  {
    var checks := GlobalVarNameChecks(p, s);
    PresentMember(checks, f);
    if f in GlobalVarNameRuleResult(p, s).errs {
      var i :| 0 <= i < |checks| && checks[i] == Some(f);
      assert GlobalVarNameCheck(p, s.line, s.lhs[i]) == Some(f);
    } else {
      forall i | 0 <= i < |s.lhs|
        ensures GlobalVarNameCheck(p, s.line, s.lhs[i]) != Some(f)
      {
        assert checks[i] == GlobalVarNameCheck(p, s.line, s.lhs[i]);
      }
    }
  }

  /** Findings follow the order of the targets. */
  lemma GlobalVarNameRuleInOrder(p: Policy, line: int, lhs1: seq<Expr>, lhs2: seq<Expr>)
    requires p.GlobalVarNameRule?
    ensures GlobalVarNameRuleResult(p, Assign(line, lhs1 + lhs2)).errs
         == GlobalVarNameRuleResult(p, Assign(line, lhs1)).errs + GlobalVarNameRuleResult(p, Assign(line, lhs2)).errs
  {
    var a := GlobalVarNameChecks(p, Assign(line, lhs1));
    var b := GlobalVarNameChecks(p, Assign(line, lhs2));
    assert GlobalVarNameChecks(p, Assign(line, lhs1 + lhs2)) == a + b;
    PresentAppend(a, b);
  }

  /** A whitelisted name is never reported, even when it fails the pattern. */
  lemma GlobalVarNameRuleExempt(p: Policy, s: Stmt, name: string)
    requires p.GlobalVarNameRule? && s.Assign? && MatchWhiteList(p.whiteList, name)
    ensures forall f :: f in GlobalVarNameRuleResult(p, s).errs ==> f.message != name + " is invalid global var name"
  {
    forall f | f in GlobalVarNameRuleResult(p, s).errs
      ensures f.message != name + " is invalid global var name"
    {
      GlobalVarNameRuleReports(p, s, f);
      var i :| 0 <= i < |s.lhs|
        && s.lhs[i].IdentExpr?
        && !Matches(p.pattern, s.lhs[i].value)
        && !MatchWhiteList(p.whiteList, s.lhs[i].value)
        && f == LintError(Some(p), s.line, s.lhs[i].value + " is invalid global var name");
      if f.message == name + " is invalid global var name" {
        SameTemplate(s.lhs[i].value, name, " is invalid global var name");
      }
    }
  }

  // ------------------------------------------------------------- function names

  /** `FuncNameRule.Validate`: at most one finding, for a function defined under a
      plain identifier that fails the pattern and is not whitelisted; nil otherwise. */
  function FuncNameRuleResult(p: Policy, s: Stmt): (e: Error)
    requires p.FuncNameRule?
    ensures e.Nil? || e.LintErr?
    ensures e.LintErr? <==>
      s.FuncDef? && s.func.IdentExpr? && !Matches(p.pattern, s.func.value) && !MatchWhiteList(p.whiteList, s.func.value)
    ensures e.LintErr? ==> e.err == LintError(Some(p), s.line, s.func.value + " is invalid func name")
  {
    if s.FuncDef? && s.func.IdentExpr? && !Matches(p.pattern, s.func.value) then
      if MatchWhiteList(p.whiteList, s.func.value) then Nil
      else LintErr(LintError(Some(p), s.line, s.func.value + " is invalid func name"))
    else Nil
  }
}
