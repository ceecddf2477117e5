/**
 * The recursive-descent, precedence-climbing parser (src/parser.rs) as a
 * reference definition: each parsing routine is a function from a cursor
 * position in the token stream to the position after what it read and the
 * syntax it built, or to the error that stopped it. The class in
 * parser.dfy does the same work by moving a shared cursor and is proved to
 * agree with these functions.
 *
 * The token stream is what the parser pulls from its iterator: spanned tokens
 * and lex errors. Peeking at position `p` sees `items[p]`, or nothing at the
 * end. A panic of the source (`todo!()`, `assert!`) is a `Panicked` stop.
 */
module ParseSpec {
  import opened Util
  import opened Tokens
  import opened Ast
  import Lexing

  /** One item of the iterator the parser pulls from (`Result<SpannedToken>`). */
  datatype Pulled = Spanned(at: nat, token: Token) | LexFailed(err: Lexing.LexErr)

  /** `ParseErr`, with the `UnexpectedMut` variant the reporter renders. */
  datatype ParseErr =
    | LexErr(err: Lexing.LexErr)
    | InvalidExpressionStart(at: nat, len: nat)
    | UnexpectedEnd
    | UnexpectedIndent(at: nat, len: nat, expectedLevel: nat)
    | UnexpectedStmt(at: nat, len: nat)
    | ExpectedTypeAnnotation(at: nat, len: nat)
    | ExpectedNewline(at: nat, len: nat)
    | ExpectedSemi(at: nat, len: nat)
    | ExpectedColon(at: nat, len: nat)
    | ExpectedFnName(at: nat, len: nat)
    | ExpectedToken(at: nat, len: nat, expected: string)
    | UnexpectedMut(at: nat, len: nat)

  /** The panics of the parser: a lex error where a block expects a statement, a non-identifier after a dot. */
  datatype ParsePanic = LexErrorInBlock | AttributeNotIdent

  /** Why parsing stopped: an error returned to the caller, or a panic. */
  datatype Stop = Raised(err: ParseErr) | Panicked(why: ParsePanic)

  /** The outcome of a parsing routine started at some position: the next position and the value, or the stop. */
  datatype Parsed<+T> = Success(next: nat, value: T) | Failure(stop: Stop) {
    predicate IsFailure() { Failure? }

    function PropagateFailure<U>(): Parsed<U>
      requires Failure?
    {
      Failure(stop)
    }

    function Extract(): (nat, T)
      requires Success?
    {
      (next, value)
    }

  }

  /** What the loop of `parse_block` does with an item. */
  datatype BlockAction = SkipItem | CloseBlock | HaltBlock(stop: Stop) | ReadStmt

  /** What the loop of `parse_expr_with` does next: stop with the cursor at `at`, or apply the operator `op`. */
  datatype LoopAction = StopAt(at: nat) | Apply(op: Operator)

  /** `ParseContext`: whether `name: type` may be read after an identifier, and whether the expression sits inside call parentheses. */
  datatype ParseContext = ParseContext(canParseAnnotation: bool, isInParenBlock: bool) {
    function EnteringParens(): (c: ParseContext)
      ensures c.isInParenBlock && c.canParseAnnotation == canParseAnnotation
    {
      this.(isInParenBlock := true)
    }

    function ExitingParens(): (c: ParseContext)
      ensures !c.isInParenBlock && c.canParseAnnotation == canParseAnnotation
    {
      this.(isInParenBlock := false)
    }

    function WithAnnotationParsing(): (c: ParseContext)
      ensures c.canParseAnnotation && c.isInParenBlock == isInParenBlock
    {
      this.(canParseAnnotation := true)
    }

    function WithoutAnnotationParsing(): (c: ParseContext)
      ensures !c.canParseAnnotation && c.isInParenBlock == isInParenBlock
    {
      this.(canParseAnnotation := false)
    }
  }

  /** `ParseContext::new`: annotations allowed, not inside parentheses. */
  function NewContext(): (c: ParseContext)
    ensures c.canParseAnnotation && !c.isInParenBlock
  {
    ParseContext(true, false)
  }

  /** `expr_has_semi`: whether a statement made of `e` counts as ended by a semicolon. */
  function ExprHasSemi(e: AstExpr, hasSemiNext: bool): (r: bool)
    ensures e.BlockExpr? ==> r == e.block.hasSemi
    ensures r != hasSemiNext ==> e.BlockExpr? || e.ConditionalExpr?
  {
    match e
    case BlockExpr(b) => b.hasSemi
    case ConditionalExpr(c) =>
      (match c.elseBlock
       case Some(eb) => ExprHasSemi(eb, hasSemiNext)
       case None => c.ifBlock.hasSemi)
    case _ => hasSemiNext
  }

  /**
   * The token stream and the token table the parser consults. The member
   * functions are the parsing routines; `p` is the cursor.
   */
  datatype Input = Input(items: seq<Pulled>, table: TokenTable) {

    /** The next item is the token `t` (`matches!(tokens.peek(), Some(Ok((_, t))))`). */
    predicate At(p: nat, t: Token)
    {
      p < |items| && items[p].Spanned? && items[p].token == t
    }

    predicate AtIdent(p: nat)
    {
      p < |items| && items[p].Spanned? && items[p].token.Ident?
    }

    /** `src_len` of a token, for error spans. */
    function Len(t: Token): nat
    {
      table.srcLen(t)
    }

    /** `get_next_token`: pull one item; the end and a lex error are errors. */
    function GetNextToken(p: nat): (r: Parsed<(nat, Token)>)
      requires p <= |items|
      ensures r.Success? <==> p < |items| && items[p].Spanned?
      ensures r.Success? ==> r.next == p + 1 && items[p] == Spanned(r.value.0, r.value.1)
      ensures p == |items| ==> r == Failure(Raised(UnexpectedEnd))
      ensures p < |items| && items[p].LexFailed? ==> r == Failure(Raised(LexErr(items[p].err)))
    {
      if p == |items| then Failure(Raised(UnexpectedEnd))
      else match items[p]
        case Spanned(at, t) => Success(p + 1, (at, t))
        case LexFailed(e) => Failure(Raised(LexErr(e)))
    }

    /** `eat`: pull one token and demand that it is `expected`. */
    function Eat(p: nat, expected: Token): (r: Parsed<()>)
      requires p <= |items|
      ensures r.Success? <==> At(p, expected)
      ensures r.Success? ==> r.next == p + 1
      ensures p < |items| && items[p].Spanned? && items[p].token != expected ==>
        r == Failure(Raised(ExpectedToken(items[p].at, Len(items[p].token), Display(expected))))
    {
      var (q, (ix, tok)) :- GetNextToken(p);
      if tok == expected then Success(q, ())
      else Failure(Raised(ExpectedToken(ix, Len(tok), Display(expected))))
    }

    /** `parse_type_decl`: an optional `mut`, then a type name. */
    function ParseTypeDecl(p: nat): (r: Parsed<TypeAnnotation>)
      requires p <= |items|
      ensures r.Success? ==> p < r.next <= |items|
    {
      var isMut := At(p, Mut);
      var (q, (ix, tok)) :- GetNextToken(if isMut then p + 1 else p);
      if tok.Ident? then
        var ty := Dynamic(tok.name);
        Success(q, if isMut then Mutable(ty) else ty)
      else Failure(Raised(ExpectedTypeAnnotation(ix, Len(tok))))
    }

    /** `parse_annotation`: `:` and a type. */
    function ParseAnnotation(p: nat): (r: Parsed<TypeAnnotation>)
      requires p <= |items|
      ensures r.Success? ==> p + 1 < r.next <= |items|
    {
      var (q, _) :- Eat(p, Colon);
      ParseTypeDecl(q)
    }

    /** The loop of `parse_fn_args`: `name: type` parameters separated by optional commas, then `)`. */
    function FnArgs(p: nat, args: seq<AstLiteral>): (r: Parsed<seq<AstLiteral>>)
      requires p <= |items|
      ensures r.Success? ==> p < r.next <= |items|
      decreases |items| - p
    {
      if !AtIdent(p) then
        var (q, _) :- Eat(p, RParen);
        Success(q, args)
      else
        var (q, arg) :- FnArg(p);
        FnArgs(q, args + [arg])
    }

    /** One parameter of `parse_fn_args`: the identifier at `p`, its annotation, and a comma if one follows. */
    function FnArg(p: nat): (r: Parsed<AstLiteral>)
      requires p < |items| && items[p].Spanned?
      ensures r.Success? ==> p < r.next <= |items| && r.value.TypedIdent? && r.value.name == items[p].token
    {
      var (q, ty) :- ParseAnnotation(p + 1);
      Success(if At(q, Comma) then q + 1 else q, TypedIdent(items[p].token, ty))
    }

    /** The loop of `parse_struct_fields`: one `name: type` and a newline per field. */
    function StructFields(p: nat, fields: seq<AstLiteral>): (r: Parsed<seq<AstLiteral>>)
      requires p <= |items|
      ensures r.Success? ==> p <= r.next <= |items|
      decreases |items| - p
    {
      if !AtIdent(p) then Success(p, fields)
      else
        var (q, field) :- StructField(p);
        StructFields(q, fields + [field])
    }

    /** One field of `parse_struct_fields`: the identifier at `p`, its annotation and a newline. */
    function StructField(p: nat): (r: Parsed<AstLiteral>)
      requires p < |items| && items[p].Spanned?
      ensures r.Success? ==> p < r.next <= |items| && r.value.TypedIdent? && r.value.name == items[p].token
    {
      var (q, ty) :- ParseAnnotation(p + 1);
      var (q2, _) :- Eat(q, Newline);
      Success(q2, TypedIdent(items[p].token, ty))
    }

    /** `skip_newlines`: the position after the run of `Newline` tokens at `p`. */
    function SkipNewlines(p: nat): (q: nat)
      requires p <= |items|
      ensures p <= q <= |items| && !At(q, Newline)
      ensures forall i :: p <= i < q ==> At(i, Newline)
      decreases |items| - p
    {
      if At(p, Newline) then SkipNewlines(p + 1) else p
    }

    /** `parse_attr_access`: `.` and an identifier; anything else after the dot panics. */
    function ParseAttrAccess(lhs: AstExpr, p: nat): (r: Parsed<AstExpr>)
      requires p <= |items|
      ensures r.Success? ==> r.next == p + 2 && r.value.AttrAccess? && r.value.expr == lhs
    {
      var (q, _) :- Eat(p, Dot);
      var (q2, (_, tok)) :- GetNextToken(q);
      if tok.Ident? then Success(q2, AttrAccess(IdentLit(tok), lhs))
      else Failure(Panicked(AttributeNotIdent))
    }

    /** The opening of `parse_call_expr`: `(`, then a newline and an indent when the arguments are written one per line. */
    function OpenArgs(p: nat): (r: Parsed<bool>)
      requires p <= |items|
      ensures r.Success? ==> p < r.next <= |items|
      ensures r.Success? ==> (r.value <==> At(p + 1, Newline))
    {
      var (q, _) :- Eat(p, LParen);
      var vertical := At(q, Newline);
      // the newline just peeked at is consumed
      var (q2, _) :- if vertical then Eat(q + 1, Indent) else Success(q, ());
      Success(q2, vertical)
    }

    /** The closing of `parse_call_expr`: a dedent if the arguments were one per line, then `)`. */
    function CloseArgs(p: nat, vertical: bool): (r: Parsed<()>)
      requires p <= |items|
      ensures r.Success? ==> p < r.next <= |items|
    {
      var (q, _) :- if vertical then Eat(p, Dedent) else Success(p, ());
      Eat(q, RParen)
    }

    // -------------------------------------------------------------------------
    // The mutually recursive routines. Each call either moves the cursor on or
    // goes to a routine of lower rank (the second component of `decreases`).
    // -------------------------------------------------------------------------

    /** `parse_block`: statements up to the end of input or a `Dedent`. */
    function ParseBlock(p: nat, indent: nat): (r: Parsed<AstBlock>)
      requires p <= |items|
      ensures r.Success? ==> p <= r.next <= |items| && r.value.indent == indent
      decreases |items| - p, 7
    {
      BlockLoop(p, indent, [], false)
    }

    /** The loop of `parse_block`, with the statements so far and whether one of them lacked a semicolon. */
    function BlockLoop(p: nat, indent: nat, stmts: seq<AstStmt>, noSemi: bool): (r: Parsed<AstBlock>)
      requires p <= |items|
      ensures r.Success? ==> p <= r.next <= |items| && r.value.indent == indent
      decreases |items| - p, 6
    {
      if p == |items| then Success(p, AstBlock(indent, stmts, !noSemi))
      else match BlockItem(p, noSemi)
        case SkipItem => BlockLoop(p + 1, indent, stmts, noSemi)
        case CloseBlock => Success(p + 1, AstBlock(indent, stmts, !noSemi))
        case HaltBlock(s) => Failure(s)
        case ReadStmt =>
          var (q, stmt) :- ParseStmt(p, indent);
          BlockLoop(q, indent, stmts + [stmt], noSemi || IsTailExpr(stmt))
    }

    /**
     * What the loop of `parse_block` does with the item at `p`: a newline is
     * skipped, a dedent closes the block, a lex error, an indent and (after
     * an expression without `;`) any other token stop it, and any other token
     * starts a statement.
     */
    function BlockItem(p: nat, noSemi: bool): (a: BlockAction)
      requires p < |items|
      ensures a.SkipItem? <==> At(p, Newline)
      ensures a.CloseBlock? <==> At(p, Dedent)
      ensures a.ReadStmt? <==> items[p].Spanned? && !noSemi && items[p].token !in {Newline, Indent, Dedent}
      ensures items[p].LexFailed? ==> a == HaltBlock(Panicked(LexErrorInBlock))
      ensures At(p, Indent) ==> a == HaltBlock(Raised(UnexpectedIndent(items[p].at, Len(Indent), 0)))
      ensures a.HaltBlock? && items[p].Spanned? && !At(p, Indent) ==>
        noSemi && a.stop == Raised(UnexpectedStmt(items[p].at, Len(items[p].token)))
    {
      match items[p]
      case LexFailed(_) => HaltBlock(Panicked(LexErrorInBlock))
      case Spanned(ix, tok) =>
        if tok == Newline then SkipItem
        else if tok == Indent then HaltBlock(Raised(UnexpectedIndent(ix, Len(tok), 0)))
        else if tok == Dedent then CloseBlock
        else if noSemi then HaltBlock(Raised(UnexpectedStmt(ix, Len(tok))))
        else ReadStmt
    }

    /** `parse_stmt`: `return`, a function or struct definition, an assignment, or an expression. */
    function ParseStmt(p: nat, indent: nat): (r: Parsed<AstStmt>)
      requires p <= |items|
      ensures r.Success? ==> p < r.next <= |items|
      decreases |items| - p, 5
    {
      var ctx := NewContext();
      if At(p, Return) then
        var (q, e) :- ParseExpr(p + 1, Lowest, indent, ctx);
        var (q2, _) :- Eat(q, Semicolon);
        Success(q2, ReturnStmt(e))
      else if At(p, Def) then
        var (q, f) :- ParseFnDef(p, indent);
        Success(q, FnDefStmt(f))
      else if At(p, Struct) then ParseStructDef(p, indent)
      else ExprStmt(p, indent)
    }

    /** The rest of `parse_stmt`: an assignment, or an expression with an optional `;`. */
    function ExprStmt(p: nat, indent: nat): (r: Parsed<AstStmt>)
      requires p <= |items|
      ensures r.Success? ==> p < r.next <= |items|
      ensures r.Success? ==> r.value.Assignment? || r.value.Expr?
      decreases |items| - p, 3
    {
      var (q, primary) :- ParsePrimary(p, indent, NewContext());
      if At(q, Eq) then AssignmentRest(primary, q, indent)
      else ExprStmtRest(primary, q, indent)
    }

    /** An assignment to `target`: the `=` at `p` (already peeked at), the value and a `;`. */
    function AssignmentRest(target: AstExpr, p: nat, indent: nat): (r: Parsed<AstStmt>)
      requires p < |items|
      ensures r.Success? ==> p + 2 < r.next <= |items| && r.value.Assignment? && r.value.target == target
      ensures r.Success? ==> At(r.next - 1, Semicolon)
      decreases |items| - p, 2
    {
      var (q, value) :- ParseExpr(p + 1, Lowest, indent, NewContext());
      var (q2, _) :- Eat(q, Semicolon);
      Success(q2, Assignment(target, value))
    }

    /** An expression statement from `primary` on: operators and postfix operations, then an optional `;`. */
    function ExprStmtRest(primary: AstExpr, p: nat, indent: nat): (r: Parsed<AstStmt>)
      requires p <= |items|
      ensures r.Success? ==> p <= r.next <= |items| && r.value.Expr?
      decreases |items| - p, 5
    {
      var (q, e) :- ParseExprWith(primary, p, Lowest, indent, NewContext());
      var semiNext := At(q, Semicolon);
      // a semicolon just peeked at is eaten
      Success(if semiNext then q + 1 else q, Expr(e, ExprHasSemi(e, semiNext)))
    }

    /** `parse_struct_def`: `struct Name:`, newline, indent, fields, methods, dedent. */
    function ParseStructDef(p: nat, indent: nat): (r: Parsed<AstStmt>)
      requires p <= |items|
      ensures r.Success? ==> p < r.next <= |items| && r.value.StructDef?
      decreases |items| - p, 0
    {
      var (q1, _) :- Eat(p, Struct);
      var (q2, (ix, name)) :- GetNextToken(q1);
      if !name.Ident? then Failure(Raised(ExpectedFnName(ix, Len(name))))
      else
        var (q3, _) :- Eat(q2, Colon);
        var (q4, _) :- Eat(q3, Newline);
        var (q5, _) :- Eat(q4, Indent);
        var (q6, fields) :- StructFields(q5, []);
        var q7 := SkipNewlines(q6);
        var (q8, methods) :- StructMethods(q7, []);
        var q9 := SkipNewlines(q8);
        var (q10, _) :- Eat(q9, Dedent);
        Success(q10, StructDef(IdentLit(name), fields, methods))
    }

    /** The loop of `parse_struct_methods`: function definitions as long as `def` comes next (at indent 0). */
    function StructMethods(p: nat, methods: seq<FnDef>): (r: Parsed<seq<FnDef>>)
      requires p <= |items|
      ensures r.Success? ==> p <= r.next <= |items|
      decreases |items| - p, 2
    {
      if !At(p, Def) then Success(p, methods)
      else
        var (q, f) :- ParseFnDef(p, 0);
        StructMethods(q, methods + [f])
    }

    /** `parse_fn_def`: `def name(args) -> type:`, newline, indent, then the body one level deeper. */
    function ParseFnDef(p: nat, indent: nat): (r: Parsed<FnDef>)
      requires p <= |items|
      ensures r.Success? ==> p < r.next <= |items|
      decreases |items| - p, 1
    {
      var (q1, _) :- Eat(p, Def);
      var (q2, (ix, name)) :- GetNextToken(q1);
      if !name.Ident? then Failure(Raised(ExpectedFnName(ix, Len(name))))
      else
        var (q3, _) :- Eat(q2, LParen);
        var (q4, args) :- FnArgs(q3, []);
        var (q5, _) :- Eat(q4, Arrow);
        var (q6, returnType) :- ParseTypeDecl(q5);
        var (q7, _) :- Eat(q6, Colon);
        var (q8, body) :- NestedBlock(q7, indent);
        Success(q8, FnDef(IdentLit(name), args, body, returnType))
    }

    /** A newline, an indent and a block one level deeper than `indent`, as after the `:` of a definition or an `else`. */
    function NestedBlock(p: nat, indent: nat): (r: Parsed<AstBlock>)
      requires p <= |items|
      ensures r.Success? ==> p + 2 <= r.next <= |items| && r.value.indent == indent + 1
      decreases |items| - p, 0
    {
      var (q, _) :- Eat(p, Newline);
      var (q2, _) :- Eat(q, Indent);
      ParseBlock(q2, indent + 1)
    }

    /** `parse_primary_expr`: a parenthesised expression, a conditional, or a literal with its postfix operations. */
    function ParsePrimary(p: nat, indent: nat, ctx: ParseContext): (r: Parsed<AstExpr>)
      requires p <= |items|
      ensures r.Success? ==> p < r.next <= |items|
      decreases |items| - p, 2
    {
      var (q, (ix, tok)) :- GetNextToken(p);
      if tok == LParen then ParseExpr(q, Lowest, indent, ctx)
      else if tok == If then
        var (q2, c) :- ParseConditional(q, indent);
        Success(q2, ConditionalExpr(c))
      else if tok.Ident? && At(q, Colon) && ctx.canParseAnnotation then
        var (q2, ty) :- ParseAnnotation(q);
        ParsePostfix(LitExpr(TypedIdent(tok, ty)), q2)
      else if tok.Ident? then ParsePostfix(LitExpr(IdentLit(tok)), q)
      else if tok.IntLiteral? then ParsePostfix(LitExpr(IntLit(tok)), q)
      else if tok.StrLiteral? then ParsePostfix(LitExpr(StrLit(tok)), q)
      else Failure(Raised(InvalidExpressionStart(ix, Len(tok))))
    }

    /** `parse_conditional`, entered after `if`: condition, `:`, the block, and an optional `else`. */
    function ParseConditional(p: nat, indent: nat): (r: Parsed<AstConditional>)
      requires p <= |items|
      ensures r.Success? ==> p < r.next <= |items|
      decreases |items| - p, 4
    {
      var (q1, cond) :- ParseExpr(p, Lowest, indent, NewContext().WithoutAnnotationParsing());
      var (q2, (ix, tok)) :- GetNextToken(q1);
      if tok != Colon then Failure(Raised(ExpectedColon(ix, Len(tok))))
      else ConditionalBody(cond, q2, indent)
    }

    /** The rest of `parse_conditional` after the `:` (at `p - 1`): an optional newline and indent, the block, the `else`. */
    function ConditionalBody(cond: AstExpr, p: nat, indent: nat): (r: Parsed<AstConditional>)
      requires p <= |items|
      ensures r.Success? ==> p <= r.next <= |items| && r.value.condition == cond && r.value.ifBlock.indent == indent + 1
      decreases |items| - p, 8
    {
      var (q, _) :- if At(p, Newline) then Eat(p + 1, Indent) else Success(p, ());
      var (q2, ifBlock) :- ParseBlock(q, indent + 1);
      var (q3, elseBlock) :- ElseBlock(q2, indent);
      Success(q3, AstConditional(cond, ifBlock, elseBlock))
    }

    /**
     * The `else_block` of `parse_conditional`: nothing unless `else` comes
     * next; after it, either `if` and a nested conditional, or `:`, newline,
     * indent and a block.
     */
    function ElseBlock(p: nat, indent: nat): (r: Parsed<Option<AstExpr>>)
      requires p <= |items|
      ensures r.Success? ==> p <= r.next <= |items|
      decreases |items| - p, 5
    {
      if !At(p, Else) then Success(p, None)
      else ElseBranch(p + 1, indent)
    }

    /** What follows `else` (at `p - 1`, already eaten): `if` and a conditional, or `:` and a nested block. */
    function ElseBranch(p: nat, indent: nat): (r: Parsed<Option<AstExpr>>)
      requires p <= |items|
      ensures r.Success? ==> p < r.next <= |items| && r.value.Some?
      decreases |items| - p, 5
    {
      var (q, (ix, tok)) :- GetNextToken(p);
      if tok == If then
        var (q2, c) :- ParseConditional(q, indent);
        Success(q2, Some(ConditionalExpr(c)))
      else if tok == Colon then
        var (q2, b) :- NestedBlock(q, indent);
        Success(q2, Some(BlockExpr(b)))
      else Failure(Raised(ExpectedColon(ix, Len(tok))))
    }

    /** `parse_expr`: a primary expression, then operators binding at least as tightly as `prec`. */
    function ParseExpr(p: nat, prec: Precedence, indent: nat, ctx: ParseContext): (r: Parsed<AstExpr>)
      requires p <= |items|
      ensures r.Success? ==> p < r.next <= |items|
      decreases |items| - p, 3
    {
      var (q, lhs) :- ParsePrimary(p, indent, ctx);
      ParseExprWith(lhs, q, prec, indent, ctx)
    }

    /** `parse_expr_with`: postfix operations on `lhs`, then the precedence-climbing loop. */
    function ParseExprWith(lhs: AstExpr, p: nat, prec: Precedence, indent: nat, ctx: ParseContext): (r: Parsed<AstExpr>)
      requires p <= |items|
      ensures r.Success? ==> p <= r.next <= |items|
      decreases |items| - p, 4
    {
      var (q, l) :- ParsePostfix(lhs, p);
      ExprLoop(l, q, prec, indent, ctx)
    }

    /** The loop of `parse_expr_with`: operators are applied while `NextAction` says so. */
    function ExprLoop(lhs: AstExpr, p: nat, prec: Precedence, indent: nat, ctx: ParseContext): (r: Parsed<AstExpr>)
      requires p <= |items|
      ensures r.Success? ==> p <= r.next <= |items|
      decreases |items| - p, 3
    {
      match NextAction(p, prec, ctx)
      case StopAt(q) => ParsePostfix(lhs, q)
      case Apply(op) =>
        var (q, l) :- OperatorStep(lhs, op, p, indent, ctx);
        ExprLoop(l, q, prec, indent, ctx)
    }

    /**
     * What the loop of `parse_expr_with` does with the item at `p`. It stops
     * at `;`, at `)` (consumed unless inside call parentheses), at the end,
     * at a lex error, at a token that is not an operator and at an operator
     * that binds less tightly than `prec`; otherwise it applies the operator.
     */
    function NextAction(p: nat, prec: Precedence, ctx: ParseContext): (a: LoopAction)
      requires p <= |items|
      ensures a.Apply? <==> p < |items| && items[p].Spanned? && items[p].token != Semicolon && items[p].token != RParen
                            && table.asOperator(items[p].token).Some?
                            && !Below(table.precedence(table.asOperator(items[p].token).value), prec)
      ensures a.Apply? ==> table.asOperator(items[p].token) == Some(a.op)
      ensures a.StopAt? ==> a.at == if At(p, RParen) && !ctx.isInParenBlock then p + 1 else p
    {
      if p < |items| && items[p].Spanned? then
        var tok := items[p].token;
        if tok == Semicolon then StopAt(p)
        else if tok == RParen then StopAt(if ctx.isInParenBlock then p else p + 1)
        else match table.asOperator(tok)
          case None => StopAt(p)
          case Some(op) => if Below(table.precedence(op), prec) then StopAt(p) else Apply(op)
      else StopAt(p)
    }

    /**
     * One round of the loop of `parse_expr_with` that does not stop: the
     * operator at `p` is consumed, the right operand is parsed at the
     * operator's own precedence, and postfix operations apply to the result.
     */
    function OperatorStep(lhs: AstExpr, op: Operator, p: nat, indent: nat, ctx: ParseContext): (r: Parsed<AstExpr>)
      requires p < |items|
      ensures r.Success? ==> p + 1 < r.next <= |items|
      decreases |items| - p, 2
    {
      var (q, rhs) :- ParseExpr(p + 1, table.precedence(op), indent, ctx);
      ParsePostfix(BinExpr(lhs, op, rhs), q)
    }

    /** `parse_postfix_expr`: calls and attribute accesses applied to `lhs`, left to right. */
    function ParsePostfix(lhs: AstExpr, p: nat): (r: Parsed<AstExpr>)
      requires p <= |items|
      ensures r.Success? ==> p <= r.next <= |items|
      decreases |items| - p, 2
    {
      if At(p, LParen) then
        var (q, call) :- ParseCallExpr(lhs, p);
        ParsePostfix(call, q)
      else if At(p, Dot) then
        var (q, access) :- ParseAttrAccess(lhs, p);
        ParsePostfix(access, q)
      else Success(p, lhs)
    }

    /** `parse_call_expr`: `(`, arguments (one per line after a newline and an indent), `)`. */
    function ParseCallExpr(fnExpr: AstExpr, p: nat): (r: Parsed<AstExpr>)
      requires p <= |items|
      ensures r.Success? ==> p < r.next <= |items|
      decreases |items| - p, 1
    {
      var (q1, vertical) :- OpenArgs(p);
      var (q2, args) :- CallArgs(q1, vertical, []);
      var (q3, _) :- CloseArgs(q2, vertical);
      Success(q3, CallExpr(fnExpr, args))
    }

    /** The argument loop of `parse_call_expr`: up to `)` or `Dedent`, arguments separated by commas. */
    function CallArgs(p: nat, vertical: bool, args: seq<CallArg>): (r: Parsed<seq<CallArg>>)
      requires p <= |items|
      ensures r.Success? ==> p <= r.next <= |items|
      decreases |items| - p, 5
    {
      if At(p, RParen) || At(p, Dedent) then Success(p, args)
      else
        var (q, arg) :- ParseCallArg(p);
        var (q2, more) :- ArgSeparator(q, vertical);
        if more then CallArgs(q2, vertical, args + [arg]) else Success(q2, args + [arg])
    }

    /**
     * What follows an argument: a comma (and, in a vertical call, a newline)
     * means another argument may follow; anything else ends the list and is
     * left in place.
     */
    function ArgSeparator(p: nat, vertical: bool): (r: Parsed<bool>)
      requires p <= |items|
      ensures r.Success? <==> !At(p, Comma) || !vertical || At(p + 1, Newline)
      ensures r.Success? ==> r.value == At(p, Comma)
      ensures r.Success? ==> r.next == if r.value then (if vertical then p + 2 else p + 1) else p
    {
      if !At(p, Comma) then Success(p, false)
      else if vertical then
        // the comma just peeked at is eaten
        var (q, _) :- Eat(p + 1, Newline);
        Success(q, true)
      else Success(p + 1, true)
    }

    /** One argument of a call: an expression, or a literal, `=` and the expression it names. */
    function ParseCallArg(p: nat): (r: Parsed<CallArg>)
      requires p <= |items|
      ensures r.Success? ==> p < r.next <= |items|
      decreases |items| - p, 4
    {
      var (q, e) :- ParseExpr(p, Lowest, 0, NewContext().EnteringParens());
      if e.LitExpr? && At(q, Eq) then NamedArg(e, q)
      else Success(q, CallArg(e, None))
    }

    /** The rest of a named argument: the `=` at `p` (already peeked at) and the expression `name` names. */
    function NamedArg(name: AstExpr, p: nat): (r: Parsed<CallArg>)
      requires p < |items|
      ensures r.Success? ==> p + 1 < r.next <= |items| && r.value.name == Some(name)
      decreases |items| - p, 3
    {
      var (q, value) :- ParseExpr(p + 1, Lowest, 0, NewContext().EnteringParens());
      Success(q, CallArg(value, Some(name)))
    }
  }

  /** `parse`: the whole stream as a block at indent 0. */
  function Parse(items: seq<Pulled>, table: TokenTable): (r: Parsed<AstBlock>)
    ensures r.Success? ==> r.value.indent == 0
  {
    Input(items, table).ParseBlock(0, 0)
  }
}
