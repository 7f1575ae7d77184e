/** The default rule set on small programs. */
module Scenarios {
  import opened Options
  import opened Ast
  import opened Patterns
  import opened Policies
  import opened Findings
  import opened Rules
  import opened Engine
  import NameRule
  import VarRule

  const LocalNames := LocalVarNameRule(LowerSnake, true, [], ZeroLevel)
  const GlobalNames := GlobalVarNameRule(UpperSnake, [], ZeroLevel)
  const FuncNames := FuncNameRule(LowerCamel, [], ZeroLevel)
  const NoGlobals := NoGlobalVarRule([], ZeroLevel)

  /** The default rules' findings on one statement, in their order. */
  lemma DefaultRuleFindings(s: Stmt)
    requires s.LocalAssign? ==> |s.exprs| >= |s.names|
    ensures RulesDefined(DefaultRules(), s)
    ensures RuleFindings(DefaultRules(), s) == Gathered(
      NameRule.LocalVarNameRuleResult(LocalNames, s).errs
      + NameRule.GlobalVarNameRuleResult(GlobalNames, s).errs
      + Adds(NameRule.FuncNameRuleResult(FuncNames, s))
      + VarRule.NoGlobalVarRuleResult(NoGlobals, s).errs)
  {
    var r := DefaultRules();
    assert RulesDefined(r, s);
    RuleFindingsStep(r, s);
    assert r[..3][..2] == r[..2] && r[..2][..1] == r[..1] && r[..1][..0] == [];
    RuleFindingsStep(r[..3], s);
    RuleFindingsStep(r[..2], s);
    RuleFindingsStep(r[..1], s);
  }

  /** The walk of a program read off the statements it visits. */
  lemma WalkResult(rules: seq<Rule>, chunk: seq<Stmt>)
    requires Runnable(rules, chunk)
    ensures AllDefined(rules, Visited(chunk))
    ensures ChunkResult(rules, chunk) == Finish(OwnAll(rules, Visited(chunk)))
  {
    ChunkPreOrder(rules, chunk);
  }

  /** A program of one statement without a body reports that statement's findings. */
  lemma LoneStatement(s: Stmt, errs: seq<LintError>)
    requires !HasBody(s) && RulesDefined(DefaultRules(), s)
    requires RuleFindings(DefaultRules(), s) == Gathered(errs)
    ensures Runnable(DefaultRules(), [s])
    ensures ChunkResult(DefaultRules(), [s]) == Pack(errs)
  {
    assert [s][1..] == [];
    assert Visited([s]) == [s];
    assert errs + [] == errs;
    WalkResult(DefaultRules(), [s]);
  }

  /** A block statement whose body is one statement without a body: the block's
      own findings, then the body's. */
  lemma LoneBlock(s: Stmt, inner: Stmt, own: seq<LintError>, errs: seq<LintError>)
    requires HasBody(s) && s.stmts == [inner] && !HasBody(inner)
    requires RulesDefined(DefaultRules(), s) && RulesDefined(DefaultRules(), inner)
    requires RuleFindings(DefaultRules(), s) == Gathered(own)
    requires RuleFindings(DefaultRules(), inner) == Gathered(errs)
    ensures Runnable(DefaultRules(), [s])
    ensures ChunkResult(DefaultRules(), [s]) == Pack(own + errs)
  {
    assert Runnable(DefaultRules(), [inner]);
    assert RunnableStmt(DefaultRules(), s);
    assert [inner][1..] == [] && [s][1..] == [];
    assert Visited([inner]) == [inner];
    assert Visited([s]) == [s, inner];
    assert [s, inner][1..] == [inner];
    assert OwnAll(DefaultRules(), [inner]) == Gathered(errs + []);
    assert errs + [] == errs;
    assert OwnAll(DefaultRules(), [s, inner]) == Gathered(own + errs);
    WalkResult(DefaultRules(), [s]);
  }

  /** All default rules on `name = ...`: the global-name finding unless the name is
      UPPER_SNAKE_CASE, then the no-global finding. */
  lemma GlobalFindings(line: int, name: string)
    ensures RulesDefined(DefaultRules(), Assign(line, [IdentExpr(name)]))
    ensures RuleFindings(DefaultRules(), Assign(line, [IdentExpr(name)])) == Gathered(
      (if IsUpperSnake(name) then [] else [LintError(Some(GlobalNames), line, name + " is invalid global var name")])
      + [LintError(Some(NoGlobals), line, name + " is invalid global var")])
  {
    GlobalSingle(line, name);
    NoGlobalSingle(line, name);
    DefaultRuleFindings(Assign(line, [IdentExpr(name)]));
  }

  /** The local-name rule on `local name = init`. */
  lemma LocalSingle(line: int, name: string, init: Expr)
    ensures NameRule.LocalVarNameRuleResult(LocalNames, LocalAssign(line, [name], [init])).errs
         == if init.FunctionExpr? || IsLowerSnake(name) then []
            else [LintError(Some(LocalNames), line, name + " is invalid local var name")]
  {
    var checks := NameRule.LocalVarNameChecks(LocalNames, LocalAssign(line, [name], [init]));
    assert checks == [NameRule.LocalVarNameCheck(LocalNames, line, name, init)];
    assert checks[..0] == [];
  }

  /** The global-name rule on `name = ...`. */
  lemma GlobalSingle(line: int, name: string)
    ensures NameRule.GlobalVarNameRuleResult(GlobalNames, Assign(line, [IdentExpr(name)])).errs
         == if IsUpperSnake(name) then [] else [LintError(Some(GlobalNames), line, name + " is invalid global var name")]
  {
    var checks := NameRule.GlobalVarNameChecks(GlobalNames, Assign(line, [IdentExpr(name)]));
    assert checks == [NameRule.GlobalVarNameCheck(GlobalNames, line, IdentExpr(name))];
    assert checks[..0] == [];
  }

  /** The no-global rule on `name = ...`. */
  lemma NoGlobalSingle(line: int, name: string)
    ensures VarRule.NoGlobalVarRuleResult(NoGlobals, Assign(line, [IdentExpr(name)])).errs
         == [LintError(Some(NoGlobals), line, name + " is invalid global var")]
  {
    var checks := VarRule.NoGlobalVarChecks(NoGlobals, Assign(line, [IdentExpr(name)]));
    assert checks == [VarRule.NoGlobalVarTargetCheck(NoGlobals, line, IdentExpr(name))];
    assert checks[..0] == [];
  }

  /** `local myVar = 1` on any line: one finding, from the local-name rule. */
  lemma LocalCamelCaseFindings(line: int)
    ensures RulesDefined(DefaultRules(), LocalAssign(line, ["myVar"], [OtherExpr]))
    ensures RuleFindings(DefaultRules(), LocalAssign(line, ["myVar"], [OtherExpr]))
         == Gathered([LintError(Some(LocalNames), line, "myVar" + " is invalid local var name")])
  {
    assert "myVar"[2] == 'V';
    LocalSingle(line, "myVar", OtherExpr);
    DefaultRuleFindings(LocalAssign(line, ["myVar"], [OtherExpr]));
  }

  /** A program of one local assignment `local myVar = 1` on line line. */
  lemma LocalCamelCaseReported(line: int)
    ensures ChunkResult(DefaultRules(), [LocalAssign(line, ["myVar"], [OtherExpr])])
         == LintErrs([LintError(Some(LocalNames), line, "myVar" + " is invalid local var name")])
  {
    LocalCamelCaseFindings(line);
    LoneStatement(LocalAssign(line, ["myVar"], [OtherExpr]), [LintError(Some(LocalNames), line, "myVar" + " is invalid local var name")]);
  }

  /** `local name = function() end`: function values are skipped by default, so
      no name bound to one is reported, whatever its convention. */
  lemma LocalFunctionValueSkipped(line: int, name: string)
    ensures ChunkResult(DefaultRules(), [LocalAssign(line, [name], [FunctionExpr([])])]) == Nil
  {
    var s := LocalAssign(line, [name], [FunctionExpr([])]);
    LocalSingle(line, name, FunctionExpr([]));
    DefaultRuleFindings(s);
    LoneStatement(s, []);
  }

  /** A global assignment to a name outside UPPER_SNAKE_CASE is reported by the
      global-name rule and then by the no-global rule. */
  lemma GlobalReportedTwice(line: int, name: string)
    requires !IsUpperSnake(name)
    ensures ChunkResult(DefaultRules(), [Assign(line, [IdentExpr(name)])])
         == LintErrs([ LintError(Some(GlobalNames), line, name + " is invalid global var name"),
                       LintError(Some(NoGlobals), line, name + " is invalid global var") ])
  {
    GlobalFindings(line, name);
    LoneStatement(Assign(line, [IdentExpr(name)]),
                  [ LintError(Some(GlobalNames), line, name + " is invalid global var name"),
                    LintError(Some(NoGlobals), line, name + " is invalid global var") ]);
  }

  /** `total = 1`: the global-name rule and the no-global rule both report it, in
      rule order. */
  lemma LowerGlobalReportedTwice(line: int)
    ensures ChunkResult(DefaultRules(), [Assign(line, [IdentExpr("total")])])
         == LintErrs([ LintError(Some(GlobalNames), line, "total" + " is invalid global var name"),
                       LintError(Some(NoGlobals), line, "total" + " is invalid global var") ])
  {
    assert !IsUpperSnake("total") by {
      assert !IsUpper("total"[0]) && "total"[0] != '_';
    }
    GlobalReportedTwice(line, "total");
  }

  /** `Total = 1`: a capital first letter is not enough for `[A-Z0-9_]*`, so this
      name is reported twice as well. */
  lemma CapitalisedGlobalReportedTwice(line: int)
    ensures ChunkResult(DefaultRules(), [Assign(line, [IdentExpr("Total")])])
         == LintErrs([ LintError(Some(GlobalNames), line, "Total" + " is invalid global var name"),
                       LintError(Some(NoGlobals), line, "Total" + " is invalid global var") ])
  {
    assert !IsUpperSnake("Total") by {
      assert !IsUpper("Total"[1]) && !IsDigit("Total"[1]) && "Total"[1] != '_';
    }
    GlobalReportedTwice(line, "Total");
  }

  /** `TOTAL = 1`: the name follows the convention, but any global assignment is
      still reported by the no-global rule. */
  lemma UpperGlobalReportedOnce(line: int)
    ensures ChunkResult(DefaultRules(), [Assign(line, [IdentExpr("TOTAL")])])
         == LintErrs([LintError(Some(NoGlobals), line, "TOTAL" + " is invalid global var")])
  {
    assert IsUpperSnake("TOTAL");
    GlobalFindings(line, "TOTAL");
    LoneStatement(Assign(line, [IdentExpr("TOTAL")]), [LintError(Some(NoGlobals), line, "TOTAL" + " is invalid global var")]);
  }

  /** `function DoThing() local myVar = 1 end` : the function name
      is reported first, then the body's local, each at its own line. */
  lemma FunctionAndBodyReported(line: int, inner: int)
    ensures Runnable(DefaultRules(), [FuncDef(line, IdentExpr("DoThing"), [LocalAssign(inner, ["myVar"], [OtherExpr])])])
    ensures ChunkResult(DefaultRules(),
                        [FuncDef(line, IdentExpr("DoThing"), [LocalAssign(inner, ["myVar"], [OtherExpr])])])
         == LintErrs([ LintError(Some(FuncNames), line, "DoThing" + " is invalid func name"),
                       LintError(Some(LocalNames), inner, "myVar" + " is invalid local var name") ])
  {
    var body := LocalAssign(inner, ["myVar"], [OtherExpr]);
    var s := FuncDef(line, IdentExpr("DoThing"), [body]);
    assert !IsLowerCamel("DoThing");
    assert !MatchWhiteList([], "DoThing");
    DefaultRuleFindings(s);
    LocalCamelCaseFindings(inner);
    LoneBlock(s, body, [LintError(Some(FuncNames), line, "DoThing" + " is invalid func name")],
              [LintError(Some(LocalNames), inner, "myVar" + " is invalid local var name")]);
  }

  /** A `while` body is linted: its bad local is reported at its own line. */
  lemma WhileBodyReported(line: int, inner: int)
    ensures Runnable(DefaultRules(), [While(line, [LocalAssign(inner, ["myVar"], [OtherExpr])])])
    ensures ChunkResult(DefaultRules(), [While(line, [LocalAssign(inner, ["myVar"], [OtherExpr])])])
         == LintErrs([LintError(Some(LocalNames), inner, "myVar" + " is invalid local var name")])
  {
    var body := LocalAssign(inner, ["myVar"], [OtherExpr]);
    var s := While(line, [body]);
    DefaultRuleFindings(s);
    LocalCamelCaseFindings(inner);
    LoneBlock(s, body, [], [LintError(Some(LocalNames), inner, "myVar" + " is invalid local var name")]);
  }

  /** The branches of an `if` are not linted, so the same local there goes
      unreported. */
  lemma IfBranchesSkipped(line: int, inner: int)
    ensures ChunkResult(DefaultRules(), [If(line, [LocalAssign(inner, ["myVar"], [OtherExpr])], [])]) == Nil
  {
    var s := If(line, [LocalAssign(inner, ["myVar"], [OtherExpr])], []);
    DefaultRuleFindings(s);
    LoneStatement(s, []);
  }

  /** A rule function that fails ends the walk with its error: the findings of
      the rules after it, and of the statements after that one, are never
      returned. */
  lemma CustomFailureAborts(line: int, next: int)
    ensures var rules := [Custom((s: Stmt) => Foreign("boom")), Builtin(LocalNames)];
            var chunk := [Other(line), LocalAssign(next, ["myVar"], [OtherExpr])];
            Runnable(rules, chunk) && ChunkResult(rules, chunk) == Foreign("boom")
  {
    var rules := [Custom((s: Stmt) => Foreign("boom")), Builtin(LocalNames)];
    var a := Other(line);
    var b := LocalAssign(next, ["myVar"], [OtherExpr]);
    assert RulesDefined(rules, a) && RulesDefined(rules, b);
    assert Runnable(rules, [a, b]);
    assert rules[..1][..0] == [];
    assert RuleFindings(rules[..1], a) == Aborted("boom");
    assert RuleFindings(rules, a) == Aborted("boom");
    assert [a, b][1..] == [b] && [b][1..] == [];
    assert Visited([b]) == [b];
    assert Visited([a, b]) == [a, b];
    WalkResult(rules, [a, b]);
  }
}
