/** Tiny C syntax trees (user/cmd/tinyc/ast.go, token.go). */
module TinyCAst {

  datatype Option<T> = None | Some(value: T)

  datatype Op = Plus | Minus | Star | Slash | Percent | Lt | Gt | Le | Ge | EqEq | Neq

  type Name = string

  datatype Expr =
    | Num(n: int)
    | Str(s: string)
    | Var(x: Name)
    | Neg(e: Expr)
    | Bin(op: Op, l: Expr, r: Expr)
    | Assign(x: Name, r: Expr)
    | AssignIndex(a: Name, i: Expr, r: Expr)
    | Index(a: Name, i: Expr)
    | Call(f: Name, args: seq<Expr>)
    | Println(format: string, args: seq<Expr>)

  /** ArrayDecl and FuncDef nodes are statements the evaluator refuses. */
  datatype Stmt =
    | Block(ss: seq<Stmt>)
    | VarDecl(x: Name, init: Option<Expr>)
    | ExprStmt(e: Expr)
    | If(cond: Expr, then_: Stmt, else_: Option<Stmt>)
    | While(cond: Expr, body: Stmt)
    | For(init_: Stmt, cond: Expr, step: Stmt, body: Stmt)
    | Return(e_: Option<Expr>)
    | PrintStmt(format: string, args: seq<Expr>)
    | Unexpected

  datatype Func = Func(params: seq<Name>, body: seq<Stmt>)
}
