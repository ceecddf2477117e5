/**
 * The syntax tree the parser builds (src/parser.rs). The shipped src/ast.rs
 * does not describe it, so these types follow the constructors the parser
 * applies: literals keep the token they were read from, blocks record their
 * indent level and whether they end in a semicolon.
 */
module Ast {
  import opened Util
  import opened Tokens

  // Constructor names follow the source's variants; `Mutable`, `IntLit`,
  // `StrLit`, `IdentLit` and `ReturnStmt` are renamed so as not to clash with
  // the token variants of the same name.

  /** A type in an annotation: a named type, possibly marked `mut`. */
  datatype TypeAnnotation = Dynamic(name: string) | Mutable(inner: TypeAnnotation)

  datatype AstLiteral =
    | IntLit(token: Token)
    | StrLit(token: Token)
    | IdentLit(token: Token)
    | TypedIdent(name: Token, typeAnnotation: TypeAnnotation)

  datatype AstExpr =
    | LitExpr(lit: AstLiteral)
    | BinExpr(l: AstExpr, op: Operator, r: AstExpr)
    | ConditionalExpr(cond: AstConditional)
    | BlockExpr(block: AstBlock)
    | CallExpr(calledExpr: AstExpr, args: seq<CallArg>)
    | AttrAccess(attribute: AstLiteral, expr: AstExpr)

  /** `if condition: if_block` with an optional `else` that is a block or another conditional. */
  datatype AstConditional = AstConditional(condition: AstExpr, ifBlock: AstBlock, elseBlock: Option<AstExpr>)

  datatype AstBlock = AstBlock(indent: nat, stmts: seq<AstStmt>, hasSemi: bool)

  /** A call argument, named when written `name = expr`. */
  datatype CallArg = CallArg(expr: AstExpr, name: Option<AstExpr>)

  datatype FnDef = FnDef(name: AstLiteral, args: seq<AstLiteral>, body: AstBlock, returnType: TypeAnnotation)

  datatype AstStmt =
    | Expr(expr: AstExpr, hasSemi: bool)
    | ReturnStmt(value: AstExpr)
    | Assignment(target: AstExpr, assignedValue: AstExpr)
    | FnDefStmt(def: FnDef)
    | StructDef(structName: AstLiteral, fields: seq<AstLiteral>, methods: seq<FnDef>)

  /** A statement that is an expression with no semicolon after it: only the last statement of a block may be one. */
  predicate IsTailExpr(s: AstStmt)
  {
    s.Expr? && !s.hasSemi
  }
}
