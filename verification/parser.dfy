/**
 * The parser of src/parser.rs as the source runs it: one cursor into the
 * token stream (the `Peekable` iterator), moved forward by every routine.
 * Each method is proved to return what the matching function of ParseSpec
 * returns and, on success, to leave the cursor where that function says.
 * A routine's result carries the position after it, so `var x :- M();`
 * binds the pair of that position and the value, and `x.1` is the value.
 */
module Parsing {
  import opened Util
  import opened Tokens
  import opened Ast
  import opened ParseSpec

  class Parser {
    /** The items the iterator will yield, and the token table. */
    const input: Input
    /** How many items have been pulled. */
    var pos: nat

    predicate Valid()
      reads this
    {
      pos <= |input.items|
    }

    constructor (items: seq<Pulled>, table: TokenTable)
      ensures Valid() && input == Input(items, table) && pos == 0
    {
      input := Input(items, table);
      pos := 0;
    }

    /** `get_next_token`. */
    method GetNextToken() returns (r: Parsed<(nat, Token)>)
      requires Valid()
      modifies this
      ensures Valid() && r == input.GetNextToken(old(pos)) && (r.Success? ==> pos == r.next)
      ensures r.Failure? ==> pos == Min(old(pos) + 1, |input.items|)
    {
      if pos == |input.items| {
        return Failure(Raised(UnexpectedEnd));
      }
      var item := input.items[pos];
      pos := pos + 1;
      match item
      case Spanned(at, t) => r := Success(pos, (at, t));
      case LexFailed(e) => r := Failure(Raised(LexErr(e)));
    }

    /** `eat`. */
    method Eat(expected: Token) returns (r: Parsed<()>)
      requires Valid()
      modifies this
      ensures Valid() && r == input.Eat(old(pos), expected) && (r.Success? ==> pos == r.next)
    {
      var spanned :- GetNextToken();
      var (ix, tok) := spanned.1;
      if tok == expected {
        return Success(pos, ());
      }
      return Failure(Raised(ExpectedToken(ix, input.Len(tok), Display(expected))));
    }

    /** `skip_newlines`. */
    method SkipNewlines()
      requires Valid()
      modifies this
      ensures Valid() && pos == input.SkipNewlines(old(pos))
    {
      while input.At(pos, Newline)
        invariant Valid() && input.SkipNewlines(pos) == input.SkipNewlines(old(pos))
        decreases |input.items| - pos
      {
        pos := pos + 1;
      }
    }

    /** `parse_type_decl`. */
    method ParseTypeDecl() returns (r: Parsed<TypeAnnotation>)
      requires Valid()
      modifies this
      ensures Valid() && r == input.ParseTypeDecl(old(pos)) && (r.Success? ==> pos == r.next)
    {
      var isMut := input.At(pos, Mut);
      if isMut {
        pos := pos + 1;
      }
      var spanned :- GetNextToken();
      var (ix, tok) := spanned.1;
      if !tok.Ident? {
        return Failure(Raised(ExpectedTypeAnnotation(ix, input.Len(tok))));
      }
      var ty := Dynamic(tok.name);
      r := Success(pos, if isMut then Mutable(ty) else ty);
    }

    /** `parse_annotation`. */
    method ParseAnnotation() returns (r: Parsed<TypeAnnotation>)
      requires Valid()
      modifies this
      ensures Valid() && r == input.ParseAnnotation(old(pos)) && (r.Success? ==> pos == r.next)
    {
      var _ :- Eat(Colon);
      r := ParseTypeDecl();
    }

    /** `parse_fn_args`. */
    method ParseFnArgs() returns (r: Parsed<seq<AstLiteral>>)
      requires Valid()
      modifies this
      ensures Valid() && r == input.FnArgs(old(pos), []) && (r.Success? ==> pos == r.next)
    {
      var args := [];
      while input.AtIdent(pos)
        invariant Valid() && input.FnArgs(pos, args) == input.FnArgs(old(pos), [])
        decreases |input.items| - pos
      {
        var arg :- FnArg();
        args := args + [arg.1];
      }
      var _ :- Eat(RParen);
      return Success(pos, args);
    }

    /** One parameter, with the comma after it if there is one. */
    method FnArg() returns (r: Parsed<AstLiteral>)
      requires Valid() && input.AtIdent(pos)
      modifies this
      ensures Valid() && r == input.FnArg(old(pos)) && (r.Success? ==> pos == r.next)
    {
      // the identifier just peeked at is pulled
      var name := input.items[pos].token;
      pos := pos + 1;
      var ty :- ParseAnnotation();
      if input.At(pos, Comma) {
        pos := pos + 1;
      }
      return Success(pos, TypedIdent(name, ty.1));
    }

    /** `parse_struct_fields`. */
    method ParseStructFields() returns (r: Parsed<seq<AstLiteral>>)
      requires Valid()
      modifies this
      ensures Valid() && r == input.StructFields(old(pos), []) && (r.Success? ==> pos == r.next)
    {
      var fields := [];
      while input.AtIdent(pos)
        invariant Valid() && input.StructFields(pos, fields) == input.StructFields(old(pos), [])
        decreases |input.items| - pos
      {
        var field :- StructField();
        fields := fields + [field.1];
      }
      return Success(pos, fields);
    }

    /** One field and the newline after it. */
    method StructField() returns (r: Parsed<AstLiteral>)
      requires Valid() && input.AtIdent(pos)
      modifies this
      ensures Valid() && r == input.StructField(old(pos)) && (r.Success? ==> pos == r.next)
    {
      // the identifier just peeked at is pulled
      var name := input.items[pos].token;
      pos := pos + 1;
      var ty :- ParseAnnotation();
      var _ :- Eat(Newline);
      return Success(pos, TypedIdent(name, ty.1));
    }

    /** `parse_attr_access`. */
    method ParseAttrAccess(lhs: AstExpr) returns (r: Parsed<AstExpr>)
      requires Valid()
      modifies this
      ensures Valid() && r == input.ParseAttrAccess(lhs, old(pos)) && (r.Success? ==> pos == r.next)
    {
      var _ :- Eat(Dot);
      var spanned :- GetNextToken();
      var (_, tok) := spanned.1;
      if !tok.Ident? {
        return Failure(Panicked(AttributeNotIdent));
      }
      return Success(pos, AttrAccess(IdentLit(tok), lhs));
    }

    /** `parse_block`. */
    method ParseBlock(indent: nat) returns (r: Parsed<AstBlock>)
      requires Valid()
      modifies this
      ensures Valid() && r == input.ParseBlock(old(pos), indent) && (r.Success? ==> pos == r.next)
      decreases |input.items| - pos, 7
    {
      var stmts := [];
      var noSemi := false;
      while pos < |input.items|
        invariant Valid() && old(pos) <= pos
        invariant input.BlockLoop(pos, indent, stmts, noSemi) == input.ParseBlock(old(pos), indent)
        decreases |input.items| - pos
      {
        match input.BlockItem(pos, noSemi)
        case SkipItem =>
          pos := pos + 1;
        case CloseBlock =>
          pos := pos + 1;
          return Success(pos, AstBlock(indent, stmts, !noSemi));
        case HaltBlock(s) =>
          return Failure(s);
        case ReadStmt =>
          var stmt :- ParseStmt(indent);
          stmts := stmts + [stmt.1];
          noSemi := noSemi || IsTailExpr(stmt.1);
      }
      return Success(pos, AstBlock(indent, stmts, !noSemi));
    }

    /** `parse_stmt`. */
    method ParseStmt(indent: nat) returns (r: Parsed<AstStmt>)
      requires Valid()
      modifies this
      ensures Valid() && r == input.ParseStmt(old(pos), indent) && (r.Success? ==> pos == r.next)
      decreases |input.items| - pos, 5
    {
      var ctx := NewContext();
      if input.At(pos, Return) {
        pos := pos + 1;
        var e :- ParseExpr(Lowest, indent, ctx);
        var _ :- Eat(Semicolon);
        return Success(pos, ReturnStmt(e.1));
      }
      if input.At(pos, Def) {
        var f :- ParseFnDef(indent);
        return Success(pos, FnDefStmt(f.1));
      }
      if input.At(pos, Struct) {
        r := ParseStructDef(indent);
        return;
      }
      r := ParseExprStmt(indent);
    }

    method ParseExprStmt(indent: nat) returns (r: Parsed<AstStmt>)
      requires Valid()
      modifies this
      ensures Valid() && r == input.ExprStmt(old(pos), indent) && (r.Success? ==> pos == r.next)
      decreases |input.items| - pos, 3
    {
      var primary :- ParsePrimary(indent, NewContext());
      if input.At(pos, Eq) {
        r := AssignmentRest(primary.1, indent);
      } else {
        r := ExprStmtRest(primary.1, indent);
      }
    }

    /** The `=`, the value and the `;` of an assignment. */
    method AssignmentRest(target: AstExpr, indent: nat) returns (r: Parsed<AstStmt>)
      requires Valid() && pos < |input.items|
      modifies this
      ensures Valid() && r == input.AssignmentRest(target, old(pos), indent) && (r.Success? ==> pos == r.next)
      decreases |input.items| - pos, 2
    {
      // the `=` just peeked at is eaten
      pos := pos + 1;
      var value :- ParseExpr(Lowest, indent, NewContext());
      var _ :- Eat(Semicolon);
      return Success(pos, Assignment(target, value.1));
    }

    /** The rest of an expression statement and its optional `;`. */
    method ExprStmtRest(primary: AstExpr, indent: nat) returns (r: Parsed<AstStmt>)
      requires Valid()
      modifies this
      ensures Valid() && r == input.ExprStmtRest(primary, old(pos), indent) && (r.Success? ==> pos == r.next)
      decreases |input.items| - pos, 5
    {
      var e :- ParseExprWith(primary, Lowest, indent, NewContext());
      var semiNext := input.At(pos, Semicolon);
      if semiNext {
        pos := pos + 1;
      }
      return Success(pos, AstStmt.Expr(e.1, ExprHasSemi(e.1, semiNext)));
    }

    /** `parse_struct_def`. */
    method ParseStructDef(indent: nat) returns (r: Parsed<AstStmt>)
      requires Valid()
      modifies this
      ensures Valid() && r == input.ParseStructDef(old(pos), indent) && (r.Success? ==> pos == r.next)
      decreases |input.items| - pos, 0
    {
      var _ :- Eat(Struct);
      var spanned :- GetNextToken();
      var (ix, name) := spanned.1;
      if !name.Ident? {
        return Failure(Raised(ExpectedFnName(ix, input.Len(name))));
      }
      var _ :- Eat(Colon);
      var _ :- Eat(Newline);
      var _ :- Eat(Indent);
      var fields :- ParseStructFields();
      SkipNewlines();
      var methods :- ParseStructMethods();
      SkipNewlines();
      var _ :- Eat(Dedent);
      return Success(pos, AstStmt.StructDef(IdentLit(name), fields.1, methods.1));
    }

    /** `parse_struct_methods`. */
    method ParseStructMethods() returns (r: Parsed<seq<FnDef>>)
      requires Valid()
      modifies this
      ensures Valid() && r == input.StructMethods(old(pos), []) && (r.Success? ==> pos == r.next)
      decreases |input.items| - pos, 2
    {
      var methods := [];
      while input.At(pos, Def)
        invariant Valid() && old(pos) <= pos
        invariant input.StructMethods(pos, methods) == input.StructMethods(old(pos), [])
        decreases |input.items| - pos
      {
        var f :- ParseFnDef(0);
        methods := methods + [f.1];
      }
      return Success(pos, methods);
    }

    /** `parse_fn_def`. */
    method ParseFnDef(indent: nat) returns (r: Parsed<FnDef>)
      requires Valid()
      modifies this
      ensures Valid() && r == input.ParseFnDef(old(pos), indent) && (r.Success? ==> pos == r.next)
      decreases |input.items| - pos, 1
    {
      var _ :- Eat(Def);
      var spanned :- GetNextToken();
      var (ix, name) := spanned.1;
      if !name.Ident? {
        return Failure(Raised(ExpectedFnName(ix, input.Len(name))));
      }
      var _ :- Eat(LParen);
      var args :- ParseFnArgs();
      var _ :- Eat(Arrow);
      var returnType :- ParseTypeDecl();
      var _ :- Eat(Colon);
      var body :- NestedBlock(indent);
      return Success(pos, FnDef.FnDef(IdentLit(name), args.1, body.1, returnType.1));
    }

    /** A newline, an indent and a block one level deeper. */
    method NestedBlock(indent: nat) returns (r: Parsed<AstBlock>)
      requires Valid()
      modifies this
      ensures Valid() && r == input.NestedBlock(old(pos), indent) && (r.Success? ==> pos == r.next)
      decreases |input.items| - pos, 0
    {
      var _ :- Eat(Newline);
      var _ :- Eat(Indent);
      r := ParseBlock(indent + 1);
    }

    /** `parse_primary_expr`. */
    method ParsePrimary(indent: nat, ctx: ParseContext) returns (r: Parsed<AstExpr>)
      requires Valid()
      modifies this
      ensures Valid() && r == input.ParsePrimary(old(pos), indent, ctx) && (r.Success? ==> pos == r.next)
      decreases |input.items| - pos, 2
    {
      var spanned :- GetNextToken();
      var (ix, tok) := spanned.1;
      if tok == LParen {
        r := ParseExpr(Lowest, indent, ctx);
        return;
      }
      if tok == If {
        var c :- ParseConditional(indent);
        return Success(pos, ConditionalExpr(c.1));
      }
      var lit;
      if tok.Ident? && input.At(pos, Colon) && ctx.canParseAnnotation {
        var ty :- ParseAnnotation();
        lit := TypedIdent(tok, ty.1);
      } else if tok.Ident? {
        lit := IdentLit(tok);
      } else if tok.IntLiteral? {
        lit := IntLit(tok);
      } else if tok.StrLiteral? {
        lit := StrLit(tok);
      } else {
        return Failure(Raised(InvalidExpressionStart(ix, input.Len(tok))));
      }
      r := ParsePostfix(LitExpr(lit));
    }

    /** `parse_conditional`, called after `if` has been pulled. */
    method ParseConditional(indent: nat) returns (r: Parsed<AstConditional>)
      requires Valid()
      modifies this
      ensures Valid() && r == input.ParseConditional(old(pos), indent) && (r.Success? ==> pos == r.next)
      decreases |input.items| - pos, 4
    {
      var cond :- ParseExpr(Lowest, indent, NewContext().WithoutAnnotationParsing());
      var spanned :- GetNextToken();
      var (ix, tok) := spanned.1;
      if tok != Colon {
        return Failure(Raised(ExpectedColon(ix, input.Len(tok))));
      }
      r := ConditionalBody(cond.1, indent);
    }

    /** The rest of `parse_conditional` after the `:`. */
    method ConditionalBody(cond: AstExpr, indent: nat) returns (r: Parsed<AstConditional>)
      requires Valid()
      modifies this
      ensures Valid() && r == input.ConditionalBody(cond, old(pos), indent) && (r.Success? ==> pos == r.next)
      decreases |input.items| - pos, 8
    {
      if input.At(pos, Newline) {
        pos := pos + 1;
        var _ :- Eat(Indent);
      }
      var ifBlock :- ParseBlock(indent + 1);
      var elseBlock :- ParseElseBlock(indent);
      return Success(pos, AstConditional(cond, ifBlock.1, elseBlock.1));
    }

    /** The `else_block` of `parse_conditional`. */
    method ParseElseBlock(indent: nat) returns (r: Parsed<Option<AstExpr>>)
      requires Valid()
      modifies this
      ensures Valid() && r == input.ElseBlock(old(pos), indent) && (r.Success? ==> pos == r.next)
      decreases |input.items| - pos, 5
    {
      if !input.At(pos, Else) {
        return Success(pos, None);
      }
      pos := pos + 1;
      r := ElseBranch(indent);
    }

    /** What follows `else`. */
    method ElseBranch(indent: nat) returns (r: Parsed<Option<AstExpr>>)
      requires Valid()
      modifies this
      ensures Valid() && r == input.ElseBranch(old(pos), indent) && (r.Success? ==> pos == r.next)
      decreases |input.items| - pos, 5
    {
      var spanned :- GetNextToken();
      var (ix, tok) := spanned.1;
      if tok == If {
        var c :- ParseConditional(indent);
        return Success(pos, Some(ConditionalExpr(c.1)));
      }
      if tok == Colon {
        var b :- NestedBlock(indent);
        return Success(pos, Some(BlockExpr(b.1)));
      }
      return Failure(Raised(ExpectedColon(ix, input.Len(tok))));
    }

    /** `parse_expr`. */
    method ParseExpr(prec: Precedence, indent: nat, ctx: ParseContext) returns (r: Parsed<AstExpr>)
      requires Valid()
      modifies this
      ensures Valid() && r == input.ParseExpr(old(pos), prec, indent, ctx) && (r.Success? ==> pos == r.next)
      decreases |input.items| - pos, 3
    {
      var lhs :- ParsePrimary(indent, ctx);
      r := ParseExprWith(lhs.1, prec, indent, ctx);
    }

    /** `parse_expr_with`: the precedence-climbing loop. */
    method ParseExprWith(parsed: AstExpr, prec: Precedence, indent: nat, ctx: ParseContext) returns (r: Parsed<AstExpr>)
      requires Valid()
      modifies this
      ensures Valid() && r == input.ParseExprWith(parsed, old(pos), prec, indent, ctx) && (r.Success? ==> pos == r.next)
      decreases |input.items| - pos, 4
    {
      var first :- ParsePostfix(parsed);
      r := ExprLoop(first.1, prec, indent, ctx);
    }

    /** The loop of `parse_expr_with`. */
    method ExprLoop(start: AstExpr, prec: Precedence, indent: nat, ctx: ParseContext) returns (r: Parsed<AstExpr>)
      requires Valid()
      modifies this
      ensures Valid() && r == input.ExprLoop(start, old(pos), prec, indent, ctx) && (r.Success? ==> pos == r.next)
      decreases |input.items| - pos, 3
    {
      var lhs := start;
      while input.NextAction(pos, prec, ctx).Apply?
        invariant Valid() && old(pos) <= pos
        invariant input.ExprLoop(lhs, pos, prec, indent, ctx) == input.ExprLoop(start, old(pos), prec, indent, ctx)
        decreases |input.items| - pos
      {
        var next :- OperatorStep(lhs, input.NextAction(pos, prec, ctx).op, indent, ctx);
        lhs := next.1;
      }
      pos := input.NextAction(pos, prec, ctx).at;
      r := ParsePostfix(lhs);
    }

    /** One round of the loop of `parse_expr_with` that goes on. */
    method OperatorStep(lhs: AstExpr, op: Operator, indent: nat, ctx: ParseContext) returns (r: Parsed<AstExpr>)
      requires Valid() && pos < |input.items|
      modifies this
      ensures Valid() && r == input.OperatorStep(lhs, op, old(pos), indent, ctx) && (r.Success? ==> pos == r.next)
      decreases |input.items| - pos, 2
    {
      pos := pos + 1;
      var rhs :- ParseExpr(input.table.precedence(op), indent, ctx);
      r := ParsePostfix(BinExpr(lhs, op, rhs.1));
    }

    /** `parse_postfix_expr`. */
    method ParsePostfix(expr: AstExpr) returns (r: Parsed<AstExpr>)
      requires Valid()
      modifies this
      ensures Valid() && r == input.ParsePostfix(expr, old(pos)) && (r.Success? ==> pos == r.next)
      decreases |input.items| - pos, 2
    {
      var lhs := expr;
      while input.At(pos, LParen) || input.At(pos, Dot)
        invariant Valid() && old(pos) <= pos
        invariant input.ParsePostfix(lhs, pos) == input.ParsePostfix(expr, old(pos))
        decreases |input.items| - pos
      {
        if input.At(pos, LParen) {
          var call :- ParseCallExpr(lhs);
          lhs := call.1;
        } else {
          var access :- ParseAttrAccess(lhs);
          lhs := access.1;
        }
      }
      return Success(pos, lhs);
    }

    /** `parse_call_expr`. */
    method ParseCallExpr(fnExpr: AstExpr) returns (r: Parsed<AstExpr>)
      requires Valid()
      modifies this
      ensures Valid() && r == input.ParseCallExpr(fnExpr, old(pos)) && (r.Success? ==> pos == r.next)
      decreases |input.items| - pos, 1
    {
      var vertical :- OpenArgs();
      var args :- ParseCallArgs(vertical.1);
      var _ :- CloseArgs(vertical.1);
      return Success(pos, CallExpr(fnExpr, args.1));
    }

    /** The opening of `parse_call_expr`. */
    method OpenArgs() returns (r: Parsed<bool>)
      requires Valid()
      modifies this
      ensures Valid() && r == input.OpenArgs(old(pos)) && (r.Success? ==> pos == r.next)
    {
      var _ :- Eat(LParen);
      var vertical := false;
      if input.At(pos, Newline) {
        vertical := true;
        pos := pos + 1;
      }
      if vertical {
        var _ :- Eat(Indent);
      }
      return Success(pos, vertical);
    }

    /** The closing of `parse_call_expr`. */
    method CloseArgs(vertical: bool) returns (r: Parsed<()>)
      requires Valid()
      modifies this
      ensures Valid() && r == input.CloseArgs(old(pos), vertical) && (r.Success? ==> pos == r.next)
    {
      if vertical {
        var _ :- Eat(Dedent);
      }
      r := Eat(RParen);
    }

    /** The argument loop of `parse_call_expr`. */
    method ParseCallArgs(vertical: bool) returns (r: Parsed<seq<CallArg>>)
      requires Valid()
      modifies this
      ensures Valid() && r == input.CallArgs(old(pos), vertical, []) && (r.Success? ==> pos == r.next)
      decreases |input.items| - pos, 5
    {
      var args := [];
      while !(input.At(pos, RParen) || input.At(pos, Dedent))
        invariant Valid() && old(pos) <= pos
        invariant input.CallArgs(pos, vertical, args) == input.CallArgs(old(pos), vertical, [])
        decreases |input.items| - pos
      {
        var arg :- ParseCallArg();
        args := args + [arg.1];
        var more :- ArgSeparator(vertical);
        if !more.1 {
          return Success(pos, args);
        }
      }
      return Success(pos, args);
    }

    /** The separator after an argument. */
    method ArgSeparator(vertical: bool) returns (r: Parsed<bool>)
      requires Valid()
      modifies this
      ensures Valid() && r == input.ArgSeparator(old(pos), vertical) && (r.Success? ==> pos == r.next)
    {
      if !input.At(pos, Comma) {
        return Success(pos, false);
      }
      pos := pos + 1;
      if vertical {
        var _ :- Eat(Newline);
      }
      return Success(pos, true);
    }

    /** One argument of a call. */
    method ParseCallArg() returns (r: Parsed<CallArg>)
      requires Valid()
      modifies this
      ensures Valid() && r == input.ParseCallArg(old(pos)) && (r.Success? ==> pos == r.next)
      decreases |input.items| - pos, 4
    {
      var e :- ParseExpr(Lowest, 0, NewContext().EnteringParens());
      if e.1.LitExpr? && input.At(pos, Eq) {
        r := NamedArg(e.1);
      } else {
        r := Success(pos, CallArg(e.1, None));
      }
    }

    /** The `=` of a named argument and the expression after it. */
    method NamedArg(name: AstExpr) returns (r: Parsed<CallArg>)
      requires Valid() && pos < |input.items|
      modifies this
      ensures Valid() && r == input.NamedArg(name, old(pos)) && (r.Success? ==> pos == r.next)
      decreases |input.items| - pos, 3
    {
      // the `=` just peeked at is eaten
      pos := pos + 1;
      var value :- ParseExpr(Lowest, 0, NewContext().EnteringParens());
      return Success(pos, CallArg(value.1, Some(name)));
    }
  }

  /** `parse`: the whole stream as a block at indent 0. */
  method Parse(items: seq<Pulled>, table: TokenTable) returns (r: Parsed<AstBlock>)
    ensures r == ParseSpec.Parse(items, table)
    ensures r.Success? ==> r.value.indent == 0
  {
    var parser := new Parser(items, table);
    r := parser.ParseBlock(0);
  }
}
