# lualin in Dafny

A model of the rule engine of lualin, a style linter for Lua programs written in
Go. A linter (`Lualin`) holds an ordered list of rules. Its walker runs every rule
on every statement, in list order. After a block statement's own rules it descends
into the block's body. The walker flattens all findings (`LintError`: rule, line,
message) into one ordered list. It returns nil when that list is empty and a
`LintErrors` collection otherwise. Any error that is not a finding ends the walk at
once and is returned unchanged.

The rules modelled:

- the configurable rules of `lualin/name_rule.go`:
  - local variable names, with a whitelist and an option to skip names bound to
    function values;
  - global variable names, with a whitelist;
  - function names, with a whitelist;
- the no-global-variable rule of `lualin/var_rule.go`;
- the older rules of `lualin/rule.go`: local name, global name and function name,
  with no whitelist and no rule reference in their findings;
- the older combined variable-name rule and function-name rule of
  `src/lualin/rule.go`;
- `RuleFunc`, a plain function used as a rule.

The model also covers how findings are rendered as text, and the default rule set.

Layout, one module per file:

| module | file | models |
|---|---|---|
| `Options` | options.dfy | `Option`; `Present`, which keeps the values that are there, in order (the shape of every "append when found" loop) |
| `Ast` | ast.dfy | the statement and expression kinds the rules and the walker read |
| `Patterns` | patterns.dfy | the three naming conventions of the default rules, exact-name patterns, and whitelist matching |
| `Policies` | policies.dfy | the rule types and their fields, and their `Level` methods |
| `Findings` | findings.dfy | `LintError`, and Go's `error` result as a sum type |
| `Report` | report.dfy | `LintError.Error` and `LintErrors.Error` |
| `NameRule`, `VarRule`, `LegacyRule`, `SrcRule` | name_rule.dfy, var_rule.dfy, legacy_rule.dfy, src_rule.dfy | one rule file each |
| `Rules` | rules.dfy | the `Rule` interface and its dispatch |
| `Engine` | lint.dfy | the `Lualin` class, the walker, `DefaultRules`, and the package-level `Lint` |
| `Scenarios` | scenarios.dfy | the default rules on small programs |

Each Go loop is a Dafny method. Each method is proved equal to a function that
states what it computes, and the properties are lemmas about those functions.

The walker is specified by mutually recursive functions over the statement tree:
`ChunkResult` for `Lualin.Lint` and `StmtResult` for `Lualin.lint`. The main
theorem, `ChunkPreOrder`, reads the walk as a flat list. The findings are those of
every visited statement, taken in pre-order (`Visited`). Each statement's
findings are in rule order, and the first failure wins.

## Model

| member | source | states |
|---|---|---|
| Engine.Lualin.constructor | lualin/lint.go:58-63 | `NewLualin`: the linter keeps the rule list it is given |
| Engine.Lualin.Lint | lualin/lint.go:65-89 | the statement loop returns exactly the walk function's result: nil, a non-empty collection, or the first foreign error |
| Engine.Lualin.LintStmt | lualin/lint.go:91-157 | the per-statement loop over the rules, plus the descent into a block body, returns exactly the statement's walk result |
| Engine.Gather | lualin/lint.go:73-79 | the type switch on a result that is not a failure appends exactly what the walk's gathering step adds: nothing for nil, the finding itself, or the collection's members in order |
| Engine.DefaultRules | lualin/lint.go:12-24 | four built-in rules, each with an empty whitelist and the zero level |
| Engine.LintWithDefaultRules | lualin/lint.go:46-49 | package `Lint` lints with `DefaultRules`, and so returns nil or a non-empty collection, never a failure |
| Engine.BuiltinLintNeverFails | lualin/lint.go:65-89 | with built-in rules only, `Lint` returns nil or a non-empty collection of findings, never another error |
| Engine.ChunkResult | lualin/lint.go:85-88 | `Lint` returns nil, a foreign error or a non-empty collection, never a single finding; an empty chunk gives nil |
| Engine.StmtResult | lualin/lint.go:153-156 | `lint` likewise never returns an empty collection or a single finding |
| Engine.ChunkPreOrder | lualin/lint.go:65-157 | the walk gathers the rule findings of every visited statement in pre-order (a statement, then its body), and the first failure in that order wins |
| Engine.StmtPreOrder | lualin/lint.go:91-157 | the same for one statement and the statements nested in it |
| Engine.LintStmtShape | lualin/lint.go:95-134 | one statement gives its rules' findings, then its body's findings only for do, generic for, numeric for, repeat, while and function definitions; `if` branches and local function bodies are not linted |
| Engine.LintInStatementOrder | lualin/lint.go:67-83 | linting `a + b` gives the findings of `a` followed by those of `b`, and a failure in `a` hides `b` |
| Engine.LintNilIff | lualin/lint.go:65-89 | `Lint` returns nil if and only if every rule, on every visited statement, returns nil or an empty collection |
| Engine.LintFailure | lualin/lint.go:80-81 | `Lint` returns a foreign error `m` if and only if `m` is the first foreign error in walk order (statement by statement, rule by rule) |
| Engine.LintFindingOrigin | lualin/lint.go:73-79 | every returned finding was returned by some rule on some visited statement, and for a built-in rule it carries that statement's line |
| Engine.RuleFindingsAppend | lualin/lint.go:95-112 | running rules `a + b` gathers the findings of `a` and then those of `b` |
| Engine.ChunkFindingsAppend | lualin/lint.go:67-83 | the statement loop over `a + b` splits the same way |
| Engine.RuleFindingsClean | lualin/lint.go:98-108 | a statement's rules add nothing exactly when each returns nil or an empty collection |
| Engine.RuleFindingsAborted | lualin/lint.go:102-111 | the rule loop aborts with `m` exactly when `m` is the first foreign error among the rules |
| Engine.RuleFindingsGathered | lualin/lint.go:95-112 | the rule loop runs to its end exactly when no rule returns a foreign error |
| Engine.RuleFindingsAbortedPrefix | lualin/lint.go:109-110 | once the rule loop has returned a foreign error, the rules after it change nothing |
| Engine.ChunkFindingsAbortedPrefix | lualin/lint.go:80-81 | once the statement loop has returned a foreign error, the statements after it change nothing |
| Engine.RuleFindingsMember | lualin/lint.go:102-108 | each gathered finding comes from some rule's result |
| Engine.OwnAllClean | lualin/lint.go:67-83 | a flat list of statements adds nothing exactly when each statement adds nothing |
| Engine.OwnAllAborted | lualin/lint.go:67-83 | a flat list of statements aborts with the first statement that aborts |
| Engine.OwnAllMember | lualin/lint.go:67-83 | each finding of a flat list comes from one of its statements |
| Engine.OwnAllAppend | lualin/lint.go:67-83 | gathering over `a + b` is gathering over `a`, then over `b` |
| Engine.VisitedAppend | lualin/lint.go:114-137 | the visiting order of `a + b` is that of `a` followed by that of `b` |
| Engine.CombineAssociative | lualin/lint.go:73-82 | flattening findings is associative, and the first failure wins |
| Engine.LiftFinish | lualin/lint.go:85-88 | packing gathered findings as nil or a collection, and then absorbing the result, loses nothing |
| Rules.Validate | lualin/rule.go:10-18 | `RuleFunc.Validate` returns exactly what the function returns; a built-in rule never returns a foreign error |
| Rules.ValidateRule | src/lualin/rule.go:10-18 | dynamic dispatch gives the rule's result |
| Policies.Policy.Level | lualin/name_rule.go:48-50 | the `Level` methods of the four rule types with a level (also name_rule.go:85-87, 117-119 and var_rule.go:53-55): the level the rule was configured with |
| Rules.LevelIrrelevant | lualin/name_rule.go:10-15 | a rule configured with another level returns the same kind of result with the same findings, up to their rule reference; `Level` gives the new level back |
| Rules.BuiltinProvenance | lualin/name_rule.go:33-37 | every finding of a built-in rule carries the statement's line; it names its rule for the four rule types with a level, and no rule for the older types |
| NameRule.LocalVarNameRuleResult | lualin/name_rule.go:17-46 | always a collection: empty on non-local statements, at most one finding per name |
| NameRule.LocalVarNameRuleValidate | lualin/name_rule.go:17-46 | the loop over `Names` computes the rule's result |
| NameRule.LocalVarNameRuleReports | lualin/name_rule.go:21-39 | a finding is reported if and only if some name is not function-skipped, not whitelisted and fails the pattern, with message `<name> is invalid local var name` and the statement's line |
| NameRule.LocalVarNameRuleInOrder | lualin/name_rule.go:23-39 | findings follow the order of the names |
| NameRule.LocalVarNameRuleExempt | lualin/name_rule.go:24-30 | a whitelisted name, or, with function skipping, a name bound to function values, is never reported |
| NameRule.GlobalVarNameRuleResult | lualin/name_rule.go:58-83 | always a collection: empty on non-assignments, at most one finding per target |
| NameRule.GlobalVarNameRuleValidate | lualin/name_rule.go:58-83 | the loop over `Lhs` computes the rule's result |
| NameRule.GlobalVarNameRuleReports | lualin/name_rule.go:62-76 | a finding is reported if and only if some identifier target fails the pattern and is not whitelisted, with message `<name> is invalid global var name` |
| NameRule.GlobalVarNameRuleInOrder | lualin/name_rule.go:64-76 | findings follow the order of the targets |
| NameRule.GlobalVarNameRuleExempt | lualin/name_rule.go:66-68 | a whitelisted name is never reported |
| NameRule.FuncNameRuleResult | lualin/name_rule.go:95-115 | nil or a single finding; a finding exactly for a function definition whose name is an identifier that fails the pattern and is not whitelisted, with message `<name> is invalid func name` |
| VarRule.NoGlobalVarRuleValidateName | lualin/var_rule.go:15-28 | the whitelist search reports nothing if and only if some pattern matches the name |
| VarRule.NoGlobalVarRuleResult | lualin/var_rule.go:30-51 | always a collection: empty on non-assignments, at most one finding per target |
| VarRule.NoGlobalVarRuleValidate | lualin/var_rule.go:30-51 | the loop over `Lhs`, calling the whitelist search, computes the rule's result |
| VarRule.NoGlobalVarRuleReports | lualin/var_rule.go:33-44 | a finding is reported if and only if some identifier target matches no whitelist pattern, with message `<name> is invalid global var` |
| VarRule.NoGlobalVarRuleEmptyWhiteList | lualin/var_rule.go:17-27 | with an empty whitelist, every identifier target is reported |
| VarRule.NoGlobalVarRuleInOrder | lualin/var_rule.go:36-44 | findings follow the order of the targets |
| LegacyRule.LocalVarNameResult | lualin/rule.go:24-47 | always a collection: empty on non-local statements, at most one finding per name |
| LegacyRule.LocalVarNameValidate | lualin/rule.go:24-47 | the loop over `Names` computes the rule's result |
| LegacyRule.LocalVarNameReports | lualin/rule.go:28-40 | a finding if and only if some name not bound to a function value fails the pattern; its rule is unset |
| LegacyRule.LocalVarNameAgrees | lualin/rule.go:24-47 | equals the configurable local rule with function skipping on and an empty whitelist, with the rule reference cleared |
| LegacyRule.GlobalVarNameResult | lualin/rule.go:53-73 | always a collection: empty on non-assignments, at most one finding per target |
| LegacyRule.GlobalVarNameValidate | lualin/rule.go:53-73 | the loop over `Lhs` computes the rule's result |
| LegacyRule.GlobalVarNameReports | lualin/rule.go:57-66 | a finding if and only if some identifier target fails the pattern; its rule is unset |
| LegacyRule.GlobalVarNameAgrees | lualin/rule.go:53-73 | equals the configurable global rule with an empty whitelist, with the rule reference cleared |
| LegacyRule.FuncNameResult | lualin/rule.go:79-93 | nil or a single finding, exactly for an identifier function name that fails the pattern; its rule is unset |
| LegacyRule.FuncNameAgrees | lualin/rule.go:79-93 | equals the configurable function rule with an empty whitelist, with the rule reference cleared |
| SrcRule.VarNameResult | src/lualin/rule.go:24-54 | always a collection, empty on statements that are neither assignments nor local assignments, at most one finding per target or per name |
| SrcRule.VarNameValidate | src/lualin/rule.go:24-54 | the two loops compute the rule's result |
| SrcRule.VarNameReportsTargets | src/lualin/rule.go:28-37 | on an assignment: a finding if and only if some identifier target fails the pattern, with message `<name> is invalid name` |
| SrcRule.VarNameReportsLocals | src/lualin/rule.go:38-47 | on a local assignment: a finding if and only if some name fails the pattern, with message `<name> is invalid var name`; no function skip and no initialiser read |
| SrcRule.VarNameTargetsInOrder | src/lualin/rule.go:30-37 | findings on an assignment follow the order of the targets |
| SrcRule.VarNameInOrder | src/lualin/rule.go:40-47 | findings follow the order of the names |
| SrcRule.SrcFuncNameResult | src/lualin/rule.go:60-74 | nil or a single finding, exactly for an identifier function name that fails the pattern, at the statement's line |
| Report.LintErrorsString | lualin/lint.go:38-44 | the loop joins the findings' texts with newlines; the result is empty exactly when there are no findings |
| Report.LintErrorString | lualin/lint.go:32-34 | `LintError.Error`: the `<line>: <message>` text reads back as the finding's line number and message |
| Report.DecimalRoundTrip | lualin/lint.go:33 | the `%d` rendering of any integer, negative ones included, reads back as that integer |
| Report.DigitsRoundTrip | lualin/lint.go:33 | the digits of a natural number read back as that number |
| Report.JoinSplitLines | lualin/lint.go:43 | joining lines that hold no newline with `\n` and splitting again gives them back, so there is no trailing newline |
| Report.ReportRoundTrip | lualin/lint.go:38-44 | a non-empty report has one line per finding, and line `i` reads back as finding `i`'s line and message |
| Findings.Pack | lualin/lint.go:85-88 | the walker's final step: nil exactly for no findings, otherwise a collection of exactly those findings |
| Findings.PresentUnattributed | lualin/rule.go:30-40 | collecting the checks with the rule cleared equals clearing the rule in the collected findings |
| Options.Present | lualin/name_rule.go:19-39 | collecting optional findings keeps at most one per check, and none when no check found anything |
| Options.PresentAppend | lualin/name_rule.go:23-39 | collecting over `a + b` is collecting over `a`, then over `b` |
| Options.PresentMember | lualin/name_rule.go:23-39 | a value is collected if and only if some check produced it |
| Patterns.LowerCamelShape | lualin/lint.go:21 | the greedy matcher for `^[a-z]+([A-Z][a-z0-9]+)*$` accepts exactly the letter-by-letter description of lowerCamelCase |
| Patterns.HumpsShape | lualin/lint.go:21 | the greedy matcher for `([A-Z][a-z0-9]+)*` accepts exactly its letter-by-letter description |
| Patterns.LowerRun | lualin/lint.go:21 | the longest `[a-z]` prefix |
| Patterns.LowerDigitRun | lualin/lint.go:21 | the longest `[a-z0-9]` prefix |
| Scenarios.LocalCamelCaseReported | lualin/lint.go:13-16 | with the default rules, `local myVar = 1` on any line gives one local-name finding at that line |
| Scenarios.LocalFunctionValueSkipped | lualin/lint.go:15 | with the default rules, a local bound to a function value gives nil whatever its name, `myHelper` included |
| Scenarios.LowerGlobalReportedTwice | lualin/lint.go:17-23 | with the default rules, `total = 1` gives the global-name finding and then the no-global finding |
| Scenarios.CapitalisedGlobalReportedTwice | lualin/lint.go:18 | with the default rules, `Total = 1` is also reported by both global rules |
| Scenarios.UpperGlobalReportedOnce | lualin/lint.go:23 | with the default rules, `TOTAL = 1` gives only the no-global finding |
| Scenarios.FunctionAndBodyReported | lualin/lint.go:131-137 | the function name's finding comes first, then the body's findings, each at its own line |
| Scenarios.WhileBodyReported | lualin/lint.go:128-137 | a `while` body is linted |
| Scenarios.IfBranchesSkipped | lualin/lint.go:114-134 | the branches of an `if` are not linted |
| Scenarios.CustomFailureAborts | lualin/lint.go:109-110 | a rule function that fails ends the walk with its error, hiding all findings |
| Scenarios.DefaultRuleFindings | lualin/lint.go:12-24 | the default rules' findings on a statement, in their order |

## Left out

- The gopher-lua parser and its `ast` package are not part of this model. Statements and expressions are a datatype that holds only what the rules and the walker read. A function definition's name is its `Name.Func` expression, and its body is `Func.Stmts`.
- Go's `regexp` engine is not modelled. A pattern is one of the three conventions of the default rules, written out as character classes, or an exact name. `Matches` means a match of the whole name.
- `matchWhiteList` is not part of this model. It is taken to mean "some pattern of the list matches the name", which is false for an empty list. This is the same search as `NoGlobalVarRule.validate`.
- `RuleLevel` is not part of this model. A level is an opaque integer that the rules carry and their `Level` methods return (`Policies.Policy.Level`); it has no effect on linting.
- The `writer` field of `Lualin`, `NewLualin`'s writer argument and the empty `Scope` struct play no part in linting and are left out.
- The rules of `src/lualin/rule.go` belong to a separate Go package whose walker is not part of this model. They share the `Rule` type with the `lualin` rules and run under the walker of `lualin/lint.go`.
- The command-line programs, which read standard input and write to standard error, are left out.
- Rule functions (`RuleFunc`) do not receive the `*Lualin`. No rule in these files reads it, and a rule function here is any function from a statement to a result.
- Pointer identity is not modelled. A finding's rule reference is the rule's value (or none, for the older rules), and a Go nil interface, an empty `LintErrors` and a single `*LintError` are distinct cases of the result type.
- Engine.Lualin.Lint: a local assignment with fewer initialisers than names makes the local-name rules index past the end and panic; that case is a precondition (`Runnable`), not modelled behaviour. It covers `local a, b = 1` and, more commonly, a local declared without any initialiser (`local x`), where `Exprs[0]` is already past the end. So whenever a local-name rule is in the rule list, ordinary Lua with such a declaration is outside the model, as it is outside what the Go can lint without crashing. Because the condition is on the whole tree, it also excludes a program where a rule function placed before a local-name rule fails on such a statement, which the Go returns as that error without reaching the panic.
- NameRule.LocalVarNameRuleResult: requires an initialiser for every name, for the same reason; so do LegacyRule.LocalVarNameResult and the methods beside them.
- Report.ReportRoundTrip: holds only for messages without newlines, since a message that contains one splits into several report lines.

On the naming conventions: the default global-name pattern `^[A-Z_][A-Z0-9_]*$` rejects `Total`. As the code is written, `Total = 1` gets a global-name finding and a no-global finding, like any lower-case name (Scenarios.CapitalisedGlobalReportedTwice).
