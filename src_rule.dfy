/** The rules of src/lualin/rule.go: one naming rule for both assignment forms,
    which never looks at initialisers, and a function-name rule. */
module SrcRule {
  import opened Options
  import opened Ast
  import opened Patterns
  import opened Policies
  import opened Findings

  /** The loop body of `VarName.Validate` for one assignment target. */
  function VarNameTargetCheck(p: Policy, line: int, lh: Expr): Option<LintError>
    requires p.VarName?
  {
    if lh.IdentExpr? && !Matches(p.pattern, lh.value) then
      Some(LintError(None, line, lh.value + " is invalid name"))
    else None
  }

  /** The loop body of `VarName.Validate` for one local name. */
  function VarNameLocalCheck(p: Policy, line: int, name: string): Option<LintError>
    requires p.VarName?
  {
    if !Matches(p.pattern, name) then Some(LintError(None, line, name + " is invalid var name")) else None
  }

  function VarNameChecks(p: Policy, s: Stmt): seq<Option<LintError>>
    requires p.VarName?
  {
    match s
    case Assign(line, lhs) =>
      seq(|lhs|, i requires 0 <= i < |lhs| => VarNameTargetCheck(p, line, lhs[i]))
    case LocalAssign(line, names, _) =>
      seq(|names|, i requires 0 <= i < |names| => VarNameLocalCheck(p, line, names[i]))
    case _ => []
  }

  /** What `VarName.Validate` returns: a collection, possibly empty, for every
      statement kind. */
  function VarNameResult(p: Policy, s: Stmt): (e: Error)
    requires p.VarName?
    ensures e.LintErrs?
    ensures !s.Assign? && !s.LocalAssign? ==> e.errs == []
    ensures s.Assign? ==> |e.errs| <= |s.lhs|
    ensures s.LocalAssign? ==> |e.errs| <= |s.names|
  {
    LintErrs(Present(VarNameChecks(p, s)))
  }

  method VarNameValidate(p: Policy, s: Stmt) returns (e: Error)
    requires p.VarName?
    ensures e == VarNameResult(p, s)
  {
    var errs: seq<LintError> := [];
    ghost var checks := VarNameChecks(p, s);
    match s {
    case Assign(line, lhs) =>
      for i := 0 to |lhs|
        invariant errs == Present(checks[..i])
      {
        PresentStep(checks, i);
        var lh := lhs[i];
        if lh.IdentExpr? && !Matches(p.pattern, lh.value) {
          errs := errs + [LintError(None, line, lh.value + " is invalid name")];
        }
      }
      assert checks[..|lhs|] == checks;
    case LocalAssign(line, names, _) =>
      for i := 0 to |names|
        invariant errs == Present(checks[..i])
      {
        PresentStep(checks, i);
        var name := names[i];
        if !Matches(p.pattern, name) {
          errs := errs + [LintError(None, line, name + " is invalid var name")];
        }
      }
      assert checks[..|names|] == checks;
    case _ =>
    }
    e := LintErrs(errs);
  }

  /** On an assignment, a finding exactly for each identifier target that fails
      the pattern. */
  lemma VarNameReportsTargets(p: Policy, s: Stmt, f: LintError)
    requires p.VarName? && s.Assign?
    ensures f in VarNameResult(p, s).errs <==>
      exists i :: 0 <= i < |s.lhs|
        && s.lhs[i].IdentExpr?
        && !Matches(p.pattern, s.lhs[i].value)
        && f == LintError(None, s.line, s.lhs[i].value + " is invalid name")
  {
    var checks := VarNameChecks(p, s);
    PresentMember(checks, f);
    if f in VarNameResult(p, s).errs {
      var i :| 0 <= i < |checks| && checks[i] == Some(f);
      assert VarNameTargetCheck(p, s.line, s.lhs[i]) == Some(f);
    } else {
      forall i | 0 <= i < |s.lhs|
        ensures VarNameTargetCheck(p, s.line, s.lhs[i]) != Some(f)
      {
        assert checks[i] == VarNameTargetCheck(p, s.line, s.lhs[i]);
      }
    }
  }

  /** On a local assignment, a finding exactly for each name that fails the
      pattern, whatever it is bound to and however many initialisers there are. */
  lemma VarNameReportsLocals(p: Policy, s: Stmt, f: LintError)
    requires p.VarName? && s.LocalAssign?
    ensures f in VarNameResult(p, s).errs <==>
      exists i :: 0 <= i < |s.names|
        && !Matches(p.pattern, s.names[i])
        && f == LintError(None, s.line, s.names[i] + " is invalid var name")
  {
    var checks := VarNameChecks(p, s);
    PresentMember(checks, f);
    if f in VarNameResult(p, s).errs {
      var i :| 0 <= i < |checks| && checks[i] == Some(f);
      assert VarNameLocalCheck(p, s.line, s.names[i]) == Some(f);
    } else {
      forall i | 0 <= i < |s.names|
        ensures VarNameLocalCheck(p, s.line, s.names[i]) != Some(f)
      {
        assert checks[i] == VarNameLocalCheck(p, s.line, s.names[i]);
      }
    }
  }

  /** Findings on an assignment follow the order of the targets. */
  lemma VarNameTargetsInOrder(p: Policy, line: int, lhs1: seq<Expr>, lhs2: seq<Expr>)
    requires p.VarName?
    ensures VarNameResult(p, Assign(line, lhs1 + lhs2)).errs
         == VarNameResult(p, Assign(line, lhs1)).errs + VarNameResult(p, Assign(line, lhs2)).errs
  {
    var a := VarNameChecks(p, Assign(line, lhs1));
    var b := VarNameChecks(p, Assign(line, lhs2));
    assert VarNameChecks(p, Assign(line, lhs1 + lhs2)) == a + b;
    PresentAppend(a, b);
  }

  /** Findings on a local assignment follow the order of the names. */
  lemma VarNameInOrder(p: Policy, line: int, names1: seq<string>, names2: seq<string>, exprs: seq<Expr>)
    requires p.VarName?
    ensures VarNameResult(p, LocalAssign(line, names1 + names2, exprs)).errs
         == VarNameResult(p, LocalAssign(line, names1, exprs)).errs + VarNameResult(p, LocalAssign(line, names2, exprs)).errs
  {
    var a := VarNameChecks(p, LocalAssign(line, names1, exprs));
    var b := VarNameChecks(p, LocalAssign(line, names2, exprs));
    assert VarNameChecks(p, LocalAssign(line, names1 + names2, exprs)) == a + b;
    PresentAppend(a, b);
  }

  /** `FuncName.Validate` of this package: at most one finding, for a function
      defined under a plain identifier that fails the pattern; nil otherwise. */
  function SrcFuncNameResult(p: Policy, s: Stmt): (e: Error)
    requires p.SrcFuncName?
    ensures e.Nil? || e.LintErr?
    ensures e.LintErr? <==> s.FuncDef? && s.func.IdentExpr? && !Matches(p.pattern, s.func.value)
    ensures e.LintErr? ==> e.err.line == s.line && e.err.message == s.func.value + " is invalid func name"
  {
    if s.FuncDef? && s.func.IdentExpr? && !Matches(p.pattern, s.func.value) then
      LintErr(LintError(None, s.line, s.func.value + " is invalid func name"))
    else Nil
  }
}
