/** The part of the Lua syntax tree the linter reads: each statement's line, the
    names and initialisers of a local assignment, the targets of an assignment, the
    name of a defined function, and the nested bodies of block statements.
    The tree is produced by the parser, which is not part of this model. */
module Ast {

  datatype Expr =
    | IdentExpr(value: string)
    | FunctionExpr(stmts: seq<Stmt>)
      /** Any other expression: attribute access, call, literal, and the absent
          function name of a method definition. */
    | OtherExpr

  datatype Stmt =
    | LocalAssign(line: int, names: seq<string>, exprs: seq<Expr>)
    | Assign(line: int, lhs: seq<Expr>)
      /** `function f() ... end`: `func` stands for `Name.Func`, `stmts` for `Func.Stmts`. */
    | FuncDef(line: int, func: Expr, stmts: seq<Stmt>)
    | DoBlock(line: int, stmts: seq<Stmt>)
    | GenericFor(line: int, stmts: seq<Stmt>)
    | NumberFor(line: int, stmts: seq<Stmt>)
    | Repeat(line: int, stmts: seq<Stmt>)
    | While(line: int, stmts: seq<Stmt>)
    | If(line: int, thenStmts: seq<Stmt>, elseStmts: seq<Stmt>)
    | LocalFunction(line: int, name: string, body: Expr)
      /** Calls, returns, breaks and every other statement kind. */
    | Other(line: int)

  /** The statement kinds whose nested body the walker lints (lualin/lint.go:114-134). */
  predicate HasBody(s: Stmt)
  {
    s.DoBlock? || s.GenericFor? || s.NumberFor? || s.Repeat? || s.While? || s.FuncDef?
  }
}
