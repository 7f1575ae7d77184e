/** The walker of lualin/lint.go: every configured rule runs on every statement,
    in rule-list order, and the walker then descends into the body of block
    statements; findings are flattened into one list, and any other error aborts
    the walk at once. */
module Engine {
  import opened Ast
  import opened Patterns
  import opened Policies
  import opened Findings
  import opened Rules

  /** The findings gathered so far, or the text of the error that ended the walk. */
  datatype Gathered = Gathered(errs: seq<LintError>) | Aborted(message: string)

  /** The walker's type switch on one returned error: nil adds nothing, a finding
      adds itself, a collection adds its members in order, anything else aborts
      (lualin/lint.go:69-82, 98-111, 139-150). */
  function Absorb(errs: seq<LintError>, e: Error): Gathered
  {
    if e.Foreign? then Aborted(e.message) else Gathered(errs + Adds(e))
  }

  /** How the walker returns what it gathered: the aborting error unchanged, or
      the findings packed as nil or a non-empty collection. */
  function Finish(g: Gathered): Error
  {
    match g
    case Aborted(m) => Foreign(m)
    case Gathered(errs) => Pack(errs)
  }

  /** What a returned error contributes, read as a gathered value. */
  function Lift(e: Error): Gathered
  {
    if e.Foreign? then Aborted(e.message) else Gathered(Adds(e))
  }

  /** Gathering one part and then another: the first abort wins, otherwise the
      findings are concatenated. */
  function Combine(g: Gathered, h: Gathered): Gathered
  {
    if g.Aborted? then g else if h.Aborted? then h else Gathered(g.errs + h.errs)
  }

  predicate RulesDefined(rules: seq<Rule>, s: Stmt)
  {
    forall i :: 0 <= i < |rules| ==> Defined(rules[i], s)
  }

  /** Every rule can run on every statement the walker visits. */
  predicate Runnable(rules: seq<Rule>, chunk: seq<Stmt>)
    decreases chunk
  {
    forall i :: 0 <= i < |chunk| ==> RunnableStmt(rules, chunk[i])
  }

  predicate RunnableStmt(rules: seq<Rule>, s: Stmt)
    decreases s
  {
    RulesDefined(rules, s) && (HasBody(s) ==> Runnable(rules, s.stmts))
  }

  /** The rule loop of `Lualin.lint` over the first `|rules|` rules
      (lualin/lint.go:95-112). */
  function RuleFindings(rules: seq<Rule>, s: Stmt): Gathered
    requires RulesDefined(rules, s)
    decreases |rules|
  {
    if rules == [] then Gathered([])
    else
      match RuleFindings(rules[..|rules| - 1], s)
      case Aborted(m) => Aborted(m)
      case Gathered(errs) => Absorb(errs, Validate(rules[|rules| - 1], s))
  }

  /** The statement loop of `Lualin.Lint` over `chunk` (lualin/lint.go:66-83). */
  function ChunkFindings(rules: seq<Rule>, chunk: seq<Stmt>): Gathered
    requires Runnable(rules, chunk)
    decreases chunk, 0
  {
    if chunk == [] then Gathered([])
    else
      match ChunkFindings(rules, chunk[..|chunk| - 1])
      case Aborted(m) => Aborted(m)
      case Gathered(errs) => Absorb(errs, StmtResult(rules, chunk[|chunk| - 1]))
  }

  /** What `Lualin.Lint` returns: nil when nothing was found, otherwise a
      non-empty collection, or the error of a rule that failed. */
  function ChunkResult(rules: seq<Rule>, chunk: seq<Stmt>): (e: Error)
    requires Runnable(rules, chunk)
    ensures e.Nil? || e.Foreign? || (e.LintErrs? && |e.errs| > 0)
    ensures chunk == [] ==> e == Nil
    decreases chunk, 1
  {
    Finish(ChunkFindings(rules, chunk))
  }

  /** What `Lualin.lint` returns for one statement: its rules' findings, then for a
      block statement the findings of its body. */
  function StmtResult(rules: seq<Rule>, s: Stmt): (e: Error)
    requires RunnableStmt(rules, s)
    ensures e.Nil? || e.Foreign? || (e.LintErrs? && |e.errs| > 0)
    decreases s, 0
  {
    match RuleFindings(rules, s)
    case Aborted(m) => Foreign(m)
    case Gathered(own) =>
      if HasBody(s) then Finish(Absorb(own, ChunkResult(rules, s.stmts))) else Pack(own)
  }

  // ------------------------------------------------------------------ the walker

  /** A linter: its rule list is fixed when it is made (`NewLualin`). The output
      writer it also holds plays no part in linting and is not modelled. */
  class Lualin {
    const rules: seq<Rule>

    constructor (rules: seq<Rule>)
      ensures this.rules == rules
    {
      this.rules := rules;
    }

    /** `Lualin.Lint`. */
    method Lint(chunk: seq<Stmt>) returns (e: Error)
      requires Runnable(rules, chunk)
      ensures e == ChunkResult(rules, chunk)
      decreases chunk, 1
    {
      var errs: seq<LintError> := [];
      for i := 0 to |chunk|
        invariant ChunkFindings(rules, chunk[..i]) == Gathered(errs)
      {
        assert chunk[..i + 1][..i] == chunk[..i] && chunk[..i + 1][i] == chunk[i];
        ChunkFindingsStep(rules, chunk[..i + 1]);
        var err := LintStmt(chunk[i]);
        if err.Foreign? {
          ChunkFindingsAbortedPrefix(rules, chunk, i + 1);
          return err;
        }
        errs := Gather(errs, err);
      }
      assert chunk[..|chunk|] == chunk;
      e := Pack(errs);
    }

    /** `Lualin.lint`. */
    method LintStmt(s: Stmt) returns (e: Error)
      requires RunnableStmt(rules, s)
      ensures e == StmtResult(rules, s)
      decreases s, 0
    {
      var errs: seq<LintError> := [];
      for i := 0 to |rules|
        invariant RuleFindings(rules[..i], s) == Gathered(errs)
      {
        assert rules[..i + 1][..i] == rules[..i] && rules[..i + 1][i] == rules[i];
        RuleFindingsStep(rules[..i + 1], s);
        var err := ValidateRule(rules[i], s);
        if err.Foreign? {
          RuleFindingsAbortedPrefix(rules, s, i + 1);
          return err;
        }
        errs := Gather(errs, err);
      }
      assert rules[..|rules|] == rules;
      assert RuleFindings(rules, s) == Gathered(errs);
      if HasBody(s) {
        var err := Lint(s.stmts);
        if err.Foreign? {
          return err;
        }
        errs := Gather(errs, err);
      }
      e := Pack(errs);
    }
  }

  /** The walker's type switch on a result that is not a failure: nil adds
      nothing, a finding adds itself, a collection adds its members in order
      (lualin/lint.go:73-79). */
  method Gather(errs: seq<LintError>, err: Error) returns (r: seq<LintError>)
    requires !err.Foreign?
    ensures Absorb(errs, err) == Gathered(r)
  {
    match err {
      case Nil =>
        r := errs;
      case LintErr(x) =>
        r := errs + [x];
      case LintErrs(xs) =>
        r := errs + xs;
    }
  }

  /** The default rule set, in order: local names in snake_case with function
      values skipped, global names in UPPER_SNAKE_CASE, function names in
      lowerCamelCase, and no global assignment at all (lualin/lint.go:12-24). */
  function DefaultRules(): (r: seq<Rule>)
    ensures |r| == 4
    ensures forall i :: 0 <= i < |r| ==>
      r[i].Builtin? && r[i].policy.HasLevel() && r[i].policy.whiteList == [] && r[i].policy.Level() == ZeroLevel
  {
    [ Builtin(LocalVarNameRule(LowerSnake, true, [], ZeroLevel)),
      Builtin(GlobalVarNameRule(UpperSnake, [], ZeroLevel)),
      Builtin(FuncNameRule(LowerCamel, [], ZeroLevel)),
      Builtin(NoGlobalVarRule([], ZeroLevel)) ]
  }

  /** The package-level `Lint`: a fresh linter with the default rules. */
  method LintWithDefaultRules(chunk: seq<Stmt>) returns (e: Error)
    requires Runnable(DefaultRules(), chunk)
    ensures e == ChunkResult(DefaultRules(), chunk)
    ensures e.Nil? || (e.LintErrs? && |e.errs| > 0)
  {
    var l := new Lualin(DefaultRules());
    e := l.Lint(chunk);
    BuiltinLintNeverFails(DefaultRules(), chunk);
  }

  // ------------------------------------------------------- algebra of gathering

  lemma CombineAssociative(a: Gathered, b: Gathered, c: Gathered)
    ensures Combine(Combine(a, b), c) == Combine(a, Combine(b, c))
  {
  }

  /** Reading back what the walker returned gives what it gathered. */
  lemma LiftFinish(g: Gathered)
    ensures Lift(Finish(g)) == g
  {
  }

  /** One more rule: its result is gathered after the others'. */
  lemma RuleFindingsStep(rules: seq<Rule>, s: Stmt)
    requires rules != [] && RulesDefined(rules, s)
    ensures RulesDefined(rules[..|rules| - 1], s)
    ensures RuleFindings(rules, s) == Combine(RuleFindings(rules[..|rules| - 1], s), Lift(Validate(rules[|rules| - 1], s)))
  {
    assert forall i :: 0 <= i < |rules| - 1 ==> rules[..|rules| - 1][i] == rules[i];
  }

  /** Once the rule loop has aborted, the remaining rules do not change its result. */
  lemma RuleFindingsAbortedPrefix(rules: seq<Rule>, s: Stmt, i: nat)
    requires RulesDefined(rules, s) && i <= |rules|
    ensures RulesDefined(rules[..i], s)
    ensures RuleFindings(rules[..i], s).Aborted? ==> RuleFindings(rules, s) == RuleFindings(rules[..i], s)
  {
    assert rules[..i] + rules[i..] == rules;
    RuleFindingsAppend(rules[..i], rules[i..], s);
  }

  /** Once the statement loop has aborted, the remaining statements do not change
      its result. */
  lemma ChunkFindingsAbortedPrefix(rules: seq<Rule>, chunk: seq<Stmt>, i: nat)
    requires Runnable(rules, chunk) && i <= |chunk|
    ensures Runnable(rules, chunk[..i])
    ensures ChunkFindings(rules, chunk[..i]).Aborted? ==> ChunkFindings(rules, chunk) == ChunkFindings(rules, chunk[..i])
  {
    assert chunk[..i] + chunk[i..] == chunk;
    ChunkFindingsAppend(rules, chunk[..i], chunk[i..]);
  }

  /** One more statement: its result is gathered after the others'. */
  lemma ChunkFindingsStep(rules: seq<Rule>, chunk: seq<Stmt>)
    requires chunk != [] && Runnable(rules, chunk)
    ensures Runnable(rules, chunk[..|chunk| - 1])
    ensures ChunkFindings(rules, chunk) == Combine(ChunkFindings(rules, chunk[..|chunk| - 1]), Lift(StmtResult(rules, chunk[|chunk| - 1])))
  {
    assert forall i :: 0 <= i < |chunk| - 1 ==> chunk[..|chunk| - 1][i] == chunk[i];
  }

  /** Dropping the last element of `a + b`, for a non-empty `b`. */
  lemma DropLastAppend<T>(a: seq<T>, b: seq<T>)
    requires b != []
    ensures (a + b)[..|a + b| - 1] == a + b[..|b| - 1]
    ensures (a + b)[|a + b| - 1] == b[|b| - 1]
  {
  }

  lemma RulesDefinedAppend(a: seq<Rule>, b: seq<Rule>, s: Stmt)
    requires RulesDefined(a + b, s)
    ensures RulesDefined(a, s) && RulesDefined(b, s)
  {
    forall i | 0 <= i < |a| ensures Defined(a[i], s) {
      assert (a + b)[i] == a[i];
    }
    forall i | 0 <= i < |b| ensures Defined(b[i], s) {
      assert (a + b)[|a| + i] == b[i];
    }
  }

  lemma RunnableAppend(rules: seq<Rule>, a: seq<Stmt>, b: seq<Stmt>)
    requires Runnable(rules, a + b)
    ensures Runnable(rules, a) && Runnable(rules, b)
  {
    forall i | 0 <= i < |a| ensures RunnableStmt(rules, a[i]) {
      assert (a + b)[i] == a[i];
    }
    forall i | 0 <= i < |b| ensures RunnableStmt(rules, b[i]) {
      assert (a + b)[|a| + i] == b[i];
    }
  }

  /** The rule loop run over two lists of rules one after the other. */
  lemma {:induction false} RuleFindingsAppend(a: seq<Rule>, b: seq<Rule>, s: Stmt)
    requires RulesDefined(a + b, s)
    ensures RulesDefined(a, s) && RulesDefined(b, s)
    ensures RuleFindings(a + b, s) == Combine(RuleFindings(a, s), RuleFindings(b, s))
    decreases |b|
  {
    RulesDefinedAppend(a, b, s);
    if b == [] {
      assert a + b == a;
    } else {
      var n := |b| - 1;
      DropLastAppend(a, b);
      RuleFindingsStep(a + b, s);
      RuleFindingsStep(b, s);
      RuleFindingsAppend(a, b[..n], s);
      CombineAssociative(RuleFindings(a, s), RuleFindings(b[..n], s), Lift(Validate(b[n], s)));
    }
  }

  /** The statement loop run over two lists of statements one after the other. */
  lemma {:induction false} ChunkFindingsAppend(rules: seq<Rule>, a: seq<Stmt>, b: seq<Stmt>)
    requires Runnable(rules, a + b)
    ensures Runnable(rules, a) && Runnable(rules, b)
    ensures ChunkFindings(rules, a + b) == Combine(ChunkFindings(rules, a), ChunkFindings(rules, b))
    decreases |b|
  {
    RunnableAppend(rules, a, b);
    if b == [] {
      assert a + b == a;
    } else {
      var n := |b| - 1;
      DropLastAppend(a, b);
      ChunkFindingsStep(rules, a + b);
      ChunkFindingsStep(rules, b);
      ChunkFindingsAppend(rules, a, b[..n]);
      CombineAssociative(ChunkFindings(rules, a), ChunkFindings(rules, b[..n]), Lift(StmtResult(rules, b[n])));
    }
  }

  // ----------------------------------------------------- the walk in pre-order

  /** The statements the walker visits, in the order it visits them: a statement,
      then (for a block statement) everything visited in its body, then the next
      statement. */
  function Visited(chunk: seq<Stmt>): seq<Stmt>
    decreases chunk
  {
    if chunk == [] then [] else VisitedStmt(chunk[0]) + Visited(chunk[1..])
  }

  function VisitedStmt(s: Stmt): seq<Stmt>
    decreases s
  {
    [s] + (if HasBody(s) then Visited(s.stmts) else [])
  }

  predicate AllDefined(rules: seq<Rule>, stmts: seq<Stmt>)
  {
    forall i :: 0 <= i < |stmts| ==> RulesDefined(rules, stmts[i])
  }

  lemma AllDefinedAppend(rules: seq<Rule>, a: seq<Stmt>, b: seq<Stmt>)
    requires AllDefined(rules, a) && AllDefined(rules, b)
    ensures AllDefined(rules, a + b)
  {
    forall i | 0 <= i < |a + b|
      ensures RulesDefined(rules, (a + b)[i])
    {
      if i >= |a| {
        assert (a + b)[i] == b[i - |a|];
      }
    }
  }

  /** The rule findings of each statement of a flat list, one statement after the
      other; the first failure wins. */
  function OwnAll(rules: seq<Rule>, stmts: seq<Stmt>): Gathered
    requires AllDefined(rules, stmts)
    decreases |stmts|
  {
    if stmts == [] then Gathered([])
    else Combine(RuleFindings(rules, stmts[0]), OwnAll(rules, stmts[1..]))
  }

  lemma {:induction false} VisitedAppend(a: seq<Stmt>, b: seq<Stmt>)
    ensures Visited(a + b) == Visited(a) + Visited(b)
    decreases |a|
  {
    if a == [] {
      assert a + b == b;
    } else {
      assert (a + b)[0] == a[0];
      assert (a + b)[1..] == a[1..] + b;
      VisitedAppend(a[1..], b);
    }
  }

  lemma {:induction false} OwnAllAppend(rules: seq<Rule>, a: seq<Stmt>, b: seq<Stmt>)
    requires AllDefined(rules, a + b)
    ensures AllDefined(rules, a) && AllDefined(rules, b)
    ensures OwnAll(rules, a + b) == Combine(OwnAll(rules, a), OwnAll(rules, b))
    decreases |a|
  {
    assert forall i :: 0 <= i < |a| ==> (a + b)[i] == a[i];
    assert forall i :: 0 <= i < |b| ==> (a + b)[|a| + i] == b[i];
    if a == [] {
      assert a + b == b;
    } else {
      assert (a + b)[0] == a[0];
      assert (a + b)[1..] == a[1..] + b;
      OwnAllAppend(rules, a[1..], b);
      CombineAssociative(RuleFindings(rules, a[0]), OwnAll(rules, a[1..]), OwnAll(rules, b));
    }
  }

  /** The walker's result is the concatenation, over the statements it visits in
      pre-order, of each statement's rule findings in rule order; a failing rule
      ends the walk with its own error at the first place it fails. */
  lemma {:induction false} ChunkPreOrder(rules: seq<Rule>, chunk: seq<Stmt>)
    requires Runnable(rules, chunk)
    ensures AllDefined(rules, Visited(chunk))
    ensures ChunkFindings(rules, chunk) == OwnAll(rules, Visited(chunk))
    decreases chunk
  {
    if chunk != [] {
      var n := |chunk| - 1;
      var init, last := chunk[..n], chunk[n];
      assert Runnable(rules, init);
      ChunkPreOrder(rules, init);
      StmtPreOrder(rules, last);
      assert chunk == init + [last];
      VisitedAppend(init, [last]);
      assert Visited([last]) == VisitedStmt(last) by {
        assert [last][1..] == [];
      }
      AllDefinedAppend(rules, Visited(init), VisitedStmt(last));
      OwnAllAppend(rules, Visited(init), VisitedStmt(last));
    }
  }

  lemma {:induction false} StmtPreOrder(rules: seq<Rule>, s: Stmt)
    requires RunnableStmt(rules, s)
    ensures AllDefined(rules, VisitedStmt(s))
    ensures Lift(StmtResult(rules, s)) == OwnAll(rules, VisitedStmt(s))
    decreases s
  {
    var below := if HasBody(s) then Visited(s.stmts) else [];
    if HasBody(s) {
      ChunkPreOrder(rules, s.stmts);
      LiftFinish(ChunkFindings(rules, s.stmts));
    }
    assert VisitedStmt(s) == [s] + below;
    assert VisitedStmt(s)[0] == s;
    assert VisitedStmt(s)[1..] == below;
    match RuleFindings(rules, s)
    case Aborted(m) =>
    case Gathered(own) =>
      if HasBody(s) {
        LiftFinish(Absorb(own, ChunkResult(rules, s.stmts)));
      } else {
        assert own + [] == own;
      }
  }

  // ----------------------------------------------------------------- corollaries

  /** A rule result that adds nothing: nil or an empty collection. */
  predicate Clean(e: Error)
  {
    !e.Foreign? && Adds(e) == []
  }

  /** Gathering adds nothing exactly when both parts add nothing. */
  lemma CombineClean(g: Gathered, h: Gathered)
    ensures Combine(g, h) == Gathered([]) <==> g == Gathered([]) && h == Gathered([])
  {
  }

  /** Rules that each return nil or an empty collection add nothing. */
  lemma {:induction false} RuleFindingsAllClean(rules: seq<Rule>, s: Stmt)
    requires RulesDefined(rules, s)
    requires forall j :: 0 <= j < |rules| ==> Clean(Validate(rules[j], s))
    ensures RuleFindings(rules, s) == Gathered([])
    decreases |rules|
  {
    if rules != [] {
      var n := |rules| - 1;
      RuleFindingsStep(rules, s);
      assert forall j :: 0 <= j < n ==> rules[..n][j] == rules[j];
      RuleFindingsAllClean(rules[..n], s);
      assert Clean(Validate(rules[n], s));
    }
  }

  /** When the rules add nothing, the `j`th rule returned nil or an empty collection. */
  lemma {:induction false} RuleFindingsCleanAt(rules: seq<Rule>, s: Stmt, j: nat)
    requires RulesDefined(rules, s) && RuleFindings(rules, s) == Gathered([]) && j < |rules|
    ensures Clean(Validate(rules[j], s))
    decreases |rules|
  {
    var n := |rules| - 1;
    RuleFindingsStep(rules, s);
    CombineClean(RuleFindings(rules[..n], s), Lift(Validate(rules[n], s)));
    if j < n {
      RuleFindingsCleanAt(rules[..n], s, j);
      assert rules[..n][j] == rules[j];
    }
  }

  /** A statement's rules add nothing exactly when each rule returns nil or an
      empty collection. */
  lemma {:induction false} RuleFindingsClean(rules: seq<Rule>, s: Stmt)
    requires RulesDefined(rules, s)
    ensures RuleFindings(rules, s) == Gathered([]) <==> forall j :: 0 <= j < |rules| ==> Clean(Validate(rules[j], s))
  {
    if RuleFindings(rules, s) == Gathered([]) {
      forall j | 0 <= j < |rules|
        ensures Clean(Validate(rules[j], s))
      {
        RuleFindingsCleanAt(rules, s, j);
      }
    }
    if forall j :: 0 <= j < |rules| ==> Clean(Validate(rules[j], s)) {
      RuleFindingsAllClean(rules, s);
    }
  }

  lemma {:induction false} OwnAllClean(rules: seq<Rule>, stmts: seq<Stmt>)
    requires AllDefined(rules, stmts)
    ensures OwnAll(rules, stmts) == Gathered([]) <==>
      forall i :: 0 <= i < |stmts| ==> RuleFindings(rules, stmts[i]) == Gathered([])
    decreases |stmts|
  {
    if stmts != [] {
      OwnAllClean(rules, stmts[1..]);
      assert forall i :: 1 <= i < |stmts| ==> stmts[1..][i - 1] == stmts[i];
    }
  }

  /** `Lualin.Lint` returns nil exactly when no rule fails on, and no rule reports
      anything about, any statement it visits. */
  lemma LintNilIff(rules: seq<Rule>, chunk: seq<Stmt>)
    requires Runnable(rules, chunk)
    ensures AllDefined(rules, Visited(chunk))
    ensures ChunkResult(rules, chunk) == Nil <==>
      forall i, j :: 0 <= i < |Visited(chunk)| && 0 <= j < |rules| ==> Clean(Validate(rules[j], Visited(chunk)[i]))
  {
    ChunkPreOrder(rules, chunk);
    var v := Visited(chunk);
    OwnAllClean(rules, v);
    forall i | 0 <= i < |v| {
      RuleFindingsClean(rules, v[i]);
    }
  }

  /** The rule loop runs to its end exactly when no rule fails. */
  lemma {:induction false} RuleFindingsGathered(rules: seq<Rule>, s: Stmt)
    requires RulesDefined(rules, s)
    ensures RuleFindings(rules, s).Gathered? <==> forall j :: 0 <= j < |rules| ==> !Validate(rules[j], s).Foreign?
    decreases |rules|
  {
    if rules != [] {
      var n := |rules| - 1;
      RuleFindingsStep(rules, s);
      RuleFindingsGathered(rules[..n], s);
      assert forall j :: 0 <= j < n ==> rules[..n][j] == rules[j];
    }
  }

  /** The rule that made the rule loop abort with `m`: the first one that fails. */
  lemma {:induction false} RuleFindingsAbortedBy(rules: seq<Rule>, s: Stmt, m: string) returns (j: nat)
    requires RulesDefined(rules, s) && RuleFindings(rules, s) == Aborted(m)
    ensures j < |rules| && Validate(rules[j], s) == Foreign(m)
    ensures forall k :: 0 <= k < j ==> !Validate(rules[k], s).Foreign?
    decreases |rules|
  {
    var n := |rules| - 1;
    RuleFindingsStep(rules, s);
    assert forall k :: 0 <= k < n ==> rules[..n][k] == rules[k];
    if RuleFindings(rules[..n], s).Aborted? {
      j := RuleFindingsAbortedBy(rules[..n], s, m);
    } else {
      RuleFindingsGathered(rules[..n], s);
      j := n;
    }
  }

  /** A first failing rule makes the rule loop abort with its error. */
  lemma {:induction false} RuleFindingsAbortedAt(rules: seq<Rule>, s: Stmt, j: nat, m: string)
    requires RulesDefined(rules, s)
    requires j < |rules| && Validate(rules[j], s) == Foreign(m)
    requires forall k :: 0 <= k < j ==> !Validate(rules[k], s).Foreign?
    ensures RuleFindings(rules, s) == Aborted(m)
    decreases |rules|
  {
    var n := |rules| - 1;
    var init := rules[..n];
    RuleFindingsStep(rules, s);
    if j < n {
      assert init[j] == rules[j];
      assert forall k :: 0 <= k < j ==> init[k] == rules[k];
      RuleFindingsAbortedAt(init, s, j, m);
    } else {
      assert forall k :: 0 <= k < n ==> init[k] == rules[k];
      RuleFindingsGathered(init, s);
      assert RuleFindings(init, s).Gathered?;
      assert Lift(Validate(rules[n], s)) == Aborted(m);
    }
  }

  /** Where a failing rule stops the rule loop: the first rule that fails. */
  lemma {:induction false} RuleFindingsAborted(rules: seq<Rule>, s: Stmt, m: string)
    requires RulesDefined(rules, s)
    ensures RuleFindings(rules, s) == Aborted(m) <==>
      exists j :: 0 <= j < |rules| && Validate(rules[j], s) == Foreign(m)
        && forall k :: 0 <= k < j ==> !Validate(rules[k], s).Foreign?
    ensures RuleFindings(rules, s).Gathered? <==> forall j :: 0 <= j < |rules| ==> !Validate(rules[j], s).Foreign?
  {
    RuleFindingsGathered(rules, s);
    if RuleFindings(rules, s) == Aborted(m) {
      var j := RuleFindingsAbortedBy(rules, s, m);
    }
    if exists j :: 0 <= j < |rules| && Validate(rules[j], s) == Foreign(m)
        && forall k :: 0 <= k < j ==> !Validate(rules[k], s).Foreign? {
      var j :| 0 <= j < |rules| && Validate(rules[j], s) == Foreign(m)
        && forall k :: 0 <= k < j ==> !Validate(rules[k], s).Foreign?;
      RuleFindingsAbortedAt(rules, s, j, m);
    }
  }

  /** Where a failure stops the walk over a flat list: the first statement whose
      rule loop fails. */
  lemma {:induction false} OwnAllAborted(rules: seq<Rule>, stmts: seq<Stmt>, m: string)
    requires AllDefined(rules, stmts)
    ensures OwnAll(rules, stmts) == Aborted(m) <==>
      exists i :: 0 <= i < |stmts| && RuleFindings(rules, stmts[i]) == Aborted(m)
        && forall k :: 0 <= k < i ==> RuleFindings(rules, stmts[k]).Gathered?
    decreases |stmts|
  {
    if stmts != [] {
      OwnAllAborted(rules, stmts[1..], m);
      assert forall i :: 1 <= i < |stmts| ==> stmts[1..][i - 1] == stmts[i];
      if OwnAll(rules, stmts) == Aborted(m) && RuleFindings(rules, stmts[0]).Gathered? {
        var i :| 0 <= i < |stmts[1..]| && RuleFindings(rules, stmts[1..][i]) == Aborted(m)
          && forall k :: 0 <= k < i ==> RuleFindings(rules, stmts[1..][k]).Gathered?;
        assert RuleFindings(rules, stmts[i + 1]) == Aborted(m);
      }
      if exists i :: (0 <= i < |stmts| && RuleFindings(rules, stmts[i]) == Aborted(m)
                      && forall k :: 0 <= k < i ==> RuleFindings(rules, stmts[k]).Gathered?) {
        var i :| 0 <= i < |stmts| && RuleFindings(rules, stmts[i]) == Aborted(m)
          && forall k :: 0 <= k < i ==> RuleFindings(rules, stmts[k]).Gathered?;
        if i > 0 {
          assert RuleFindings(rules, stmts[1..][i - 1]) == Aborted(m);
        }
      }
    }
  }

  /** `Lualin.Lint` fails exactly with the error of the first failing rule on the
      first statement, in walk order, where some rule fails; the findings gathered
      before it are dropped. */
  lemma LintFailure(rules: seq<Rule>, chunk: seq<Stmt>, m: string)
    requires Runnable(rules, chunk)
    ensures AllDefined(rules, Visited(chunk))
    ensures ChunkResult(rules, chunk) == Foreign(m) <==>
      exists i, j :: 0 <= i < |Visited(chunk)| && 0 <= j < |rules|
        && Validate(rules[j], Visited(chunk)[i]) == Foreign(m)
        && (forall k :: 0 <= k < j ==> !Validate(rules[k], Visited(chunk)[i]).Foreign?)
        && (forall i', k :: 0 <= i' < i && 0 <= k < |rules| ==> !Validate(rules[k], Visited(chunk)[i']).Foreign?)
  {
    ChunkPreOrder(rules, chunk);
    var v := Visited(chunk);
    OwnAllAborted(rules, v, m);
    forall i | 0 <= i < |v| {
      RuleFindingsAborted(rules, v[i], m);
    }
  }

  /** Every finding is reported by some rule about some visited statement; a
      built-in rule's finding carries that statement's line. */
  lemma {:induction false} OwnAllMember(rules: seq<Rule>, stmts: seq<Stmt>, f: LintError)
    requires AllDefined(rules, stmts)
    requires OwnAll(rules, stmts).Gathered? && f in OwnAll(rules, stmts).errs
    ensures exists i :: 0 <= i < |stmts| && RuleFindings(rules, stmts[i]).Gathered? && f in RuleFindings(rules, stmts[i]).errs
    decreases |stmts|
  {
    if f !in RuleFindings(rules, stmts[0]).errs {
      OwnAllMember(rules, stmts[1..], f);
      var i :| 0 <= i < |stmts[1..]| && RuleFindings(rules, stmts[1..][i]).Gathered? && f in RuleFindings(rules, stmts[1..][i]).errs;
      assert stmts[1..][i] == stmts[i + 1];
    }
  }

  lemma {:induction false} RuleFindingsMember(rules: seq<Rule>, s: Stmt, f: LintError)
    requires RulesDefined(rules, s)
    requires RuleFindings(rules, s).Gathered? && f in RuleFindings(rules, s).errs
    ensures exists j :: 0 <= j < |rules| && !Validate(rules[j], s).Foreign? && f in Adds(Validate(rules[j], s))
    decreases |rules|
  {
    var n := |rules| - 1;
    if f !in Adds(Validate(rules[n], s)) {
      RuleFindingsMember(rules[..n], s, f);
      var j :| 0 <= j < n && !Validate(rules[..n][j], s).Foreign? && f in Adds(Validate(rules[..n][j], s));
      assert rules[..n][j] == rules[j];
    }
  }

  lemma LintFindingOrigin(rules: seq<Rule>, chunk: seq<Stmt>, f: LintError)
    requires Runnable(rules, chunk)
    requires ChunkResult(rules, chunk).LintErrs? && f in ChunkResult(rules, chunk).errs
    ensures AllDefined(rules, Visited(chunk))
    ensures exists i, j ::
      && 0 <= i < |Visited(chunk)| && 0 <= j < |rules|
      && !Validate(rules[j], Visited(chunk)[i]).Foreign?
      && f in Adds(Validate(rules[j], Visited(chunk)[i]))
      && (rules[j].Builtin? ==> f.line == Visited(chunk)[i].line)
  {
    ChunkPreOrder(rules, chunk);
    var v := Visited(chunk);
    LiftFinish(ChunkFindings(rules, chunk));
    OwnAllMember(rules, v, f);
    var i :| 0 <= i < |v| && RuleFindings(rules, v[i]).Gathered? && f in RuleFindings(rules, v[i]).errs;
    RuleFindingsMember(rules, v[i], f);
    var j :| 0 <= j < |rules| && !Validate(rules[j], v[i]).Foreign? && f in Adds(Validate(rules[j], v[i]));
    if rules[j].Builtin? {
      BuiltinProvenance(rules[j].policy, v[i], f);
    }
  }

  /** Linting two statement lists one after the other: the findings of the first,
      then those of the second, unless one of them fails. */
  lemma LintInStatementOrder(rules: seq<Rule>, a: seq<Stmt>, b: seq<Stmt>)
    requires Runnable(rules, a + b)
    ensures Runnable(rules, a) && Runnable(rules, b)
    ensures Lift(ChunkResult(rules, a + b)) == Combine(Lift(ChunkResult(rules, a)), Lift(ChunkResult(rules, b)))
  {
    ChunkFindingsAppend(rules, a, b);
    LiftFinish(ChunkFindings(rules, a + b));
    LiftFinish(ChunkFindings(rules, a));
    LiftFinish(ChunkFindings(rules, b));
  }

  /** One statement: the rules' findings in rule order, then, only for the six
      block kinds, the findings of the body; other nested statements (the branches
      of an `if`, the body of a local function) are not linted. */
  lemma LintStmtShape(rules: seq<Rule>, s: Stmt)
    requires RunnableStmt(rules, s)
    ensures Lift(StmtResult(rules, s)) ==
      Combine(RuleFindings(rules, s), if HasBody(s) then Lift(ChunkResult(rules, s.stmts)) else Gathered([]))
    ensures Lift(ChunkResult(rules, [s])) == Lift(StmtResult(rules, s))
  {
    assert [s][..0] == [];
    var e := StmtResult(rules, s);
    assert ChunkFindings(rules, [s]) == Absorb([], e);
    if !e.Foreign? {
      assert [] + Adds(e) == Adds(e);
    }
    assert Absorb([], e) == Lift(e);
    LiftFinish(ChunkFindings(rules, [s]));
    if HasBody(s) {
      LiftFinish(ChunkFindings(rules, s.stmts));
    }
    match RuleFindings(rules, s)
    case Aborted(_) =>
    case Gathered(own) =>
      if HasBody(s) {
        LiftFinish(Absorb(own, ChunkResult(rules, s.stmts)));
      } else {
        assert own + [] == own;
      }
  }

  /** A linter whose rules are all built in never fails: `Lint` returns nil or a
      non-empty collection of findings. */
  lemma BuiltinLintNeverFails(rules: seq<Rule>, chunk: seq<Stmt>)
    requires Runnable(rules, chunk)
    requires forall j :: 0 <= j < |rules| ==> rules[j].Builtin?
    ensures ChunkResult(rules, chunk).Nil? || (ChunkResult(rules, chunk).LintErrs? && |ChunkResult(rules, chunk).errs| > 0)
  {
    var e := ChunkResult(rules, chunk);
    if e.Foreign? {
      LintFailure(rules, chunk, e.message);
    }
  }
}
