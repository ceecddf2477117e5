/**
 * What the parsing routines of src/parser.rs promise beyond the contracts
 * of the reference definitions in parse_spec.dfy: the tail-expression rule
 * of blocks, the shapes of statements and conditionals, and the type
 * annotation grammar. How expressions group is in expr_props.dfy.
 */
module ParseProps {
  import opened Util
  import opened Tokens
  import opened Ast
  import opened ParseSpec

  // ---------------------------------------------------------------------------
  // Blocks
  // ---------------------------------------------------------------------------

  /**
   * The tail-expression rule: no statement but the last is an expression
   * without `;`, and `noSemi` says whether the last one is.
   */
  predicate TailRule(stmts: seq<AstStmt>, noSemi: bool)
  {
    (forall k :: 0 <= k < |stmts| - 1 ==> !IsTailExpr(stmts[k]))
    && (noSemi <==> |stmts| > 0 && IsTailExpr(stmts[|stmts| - 1]))
  }

  /** The loop of `parse_block` keeps the tail-expression rule. */
  lemma {:induction false} BlockLoopTail(inp: Input, p: nat, indent: nat, stmts: seq<AstStmt>, noSemi: bool)
    requires p <= |inp.items| && TailRule(stmts, noSemi)
    ensures var r := inp.BlockLoop(p, indent, stmts, noSemi);
      r.Success? ==> TailRule(r.value.stmts, !r.value.hasSemi)
    decreases |inp.items| - p
  {
    if p < |inp.items| {
      match inp.BlockItem(p, noSemi)
      case SkipItem => BlockLoopTail(inp, p + 1, indent, stmts, noSemi);
      case CloseBlock =>
      case HaltBlock(_) =>
      case ReadStmt =>
        var r := inp.ParseStmt(p, indent);
        if r.Success? {
          TailRuleExtend(stmts, r.value);
          BlockLoopTail(inp, r.next, indent, stmts + [r.value], IsTailExpr(r.value));
        }
    }
  }

  /** `q` is the end of input or just after a `Dedent`. */
  predicate BlockEnd(inp: Input, q: nat)
  {
    q == |inp.items| || (q > 0 && inp.At(q - 1, Dedent))
  }

  /** The loop of `parse_block` stops at the end of input or just after consuming a `Dedent`. */
  lemma {:induction false} BlockLoopEnd(inp: Input, p: nat, indent: nat, stmts: seq<AstStmt>, noSemi: bool)
    requires p <= |inp.items|
    ensures var r := inp.BlockLoop(p, indent, stmts, noSemi);
      r.Success? ==> BlockEnd(inp, r.next)
    decreases |inp.items| - p
  {
    if p < |inp.items| {
      match inp.BlockItem(p, noSemi)
      case SkipItem => BlockLoopEnd(inp, p + 1, indent, stmts, noSemi);
      case CloseBlock => assert BlockEnd(inp, p + 1);
      case HaltBlock(_) =>
      case ReadStmt =>
        var r := inp.ParseStmt(p, indent);
        if r.Success? {
          BlockLoopEnd(inp, r.next, indent, stmts + [r.value], noSemi || IsTailExpr(r.value));
        }
    }
  }

  /** A statement read after statements none of which is a tail expression. */
  lemma TailRuleExtend(stmts: seq<AstStmt>, stmt: AstStmt)
    requires TailRule(stmts, false)
    ensures TailRule(stmts + [stmt], IsTailExpr(stmt))
  {
  }

  /**
   * `parse_block`: on success only the last statement may be an expression
   * without `;`, the block's `has_semi` is false exactly when it is one, and
   * the block ended at the end of input or by consuming a `Dedent`.
   */
  lemma ParseBlockShape(inp: Input, p: nat, indent: nat)
    requires p <= |inp.items|
    ensures var r := inp.ParseBlock(p, indent);
      r.Success? ==>
        r.value.indent == indent
        && TailRule(r.value.stmts, !r.value.hasSemi)
        && BlockEnd(inp, r.next)
  {
    BlockLoopTail(inp, p, indent, [], false);
    BlockLoopEnd(inp, p, indent, [], false);
  }

  /** `parse`: the whole stream is one block at indent 0 that keeps the tail-expression rule. */
  lemma ParseShape(items: seq<Pulled>, table: TokenTable)
    ensures var r := Parse(items, table);
      r.Success? ==> r.value.indent == 0 && TailRule(r.value.stmts, !r.value.hasSemi)
  {
    ParseBlockShape(Input(items, table), 0, 0);
  }

  /** Any token that would start a statement after an expression without `;` is an `UnexpectedStmt`. */
  lemma StatementAfterTail(inp: Input, p: nat, indent: nat, stmts: seq<AstStmt>)
    requires p < |inp.items| && inp.items[p].Spanned?
    requires inp.items[p].token != Newline && inp.items[p].token != Indent && inp.items[p].token != Dedent
    ensures inp.BlockLoop(p, indent, stmts, true)
      == Failure(Raised(UnexpectedStmt(inp.items[p].at, inp.Len(inp.items[p].token))))
  {
  }

  /** An `Indent` where a statement is expected is an `UnexpectedIndent`. */
  lemma IndentInBlock(inp: Input, p: nat, indent: nat, stmts: seq<AstStmt>, noSemi: bool)
    requires inp.At(p, Indent)
    ensures inp.BlockLoop(p, indent, stmts, noSemi)
      == Failure(Raised(UnexpectedIndent(inp.items[p].at, inp.Len(Indent), 0)))
  {
  }

  // ---------------------------------------------------------------------------
  // Statements
  // ---------------------------------------------------------------------------

  /** `return` and an expression must be followed by `;`. */
  lemma ReturnShape(inp: Input, p: nat, indent: nat)
    requires p <= |inp.items| && inp.At(p, Return)
    ensures var r := inp.ParseStmt(p, indent);
      r.Success? ==> r.value.ReturnStmt? && inp.At(r.next - 1, Semicolon)
  {
  }

  /** `def` starts a function definition statement. */
  lemma DefShape(inp: Input, p: nat, indent: nat)
    requires p <= |inp.items| && inp.At(p, Def)
    ensures var r := inp.ParseStmt(p, indent); r.Success? ==> r.value.FnDefStmt?
  {
  }

  /** `struct` starts a struct definition statement. */
  lemma StructShape(inp: Input, p: nat, indent: nat)
    requires p <= |inp.items| && inp.At(p, Struct)
    ensures var r := inp.ParseStmt(p, indent); r.Success? ==> r.value.StructDef?
  {
  }

  /**
   * A statement that starts with an expression is an assignment, which ends
   * with the `;` it demands, or an expression statement, which is the rest
   * of the expression after its primary part (see ExprStmtSemi).
   */
  lemma ExprStmtShape(inp: Input, p: nat, indent: nat)
    requires p <= |inp.items|
    ensures var r := inp.ExprStmt(p, indent);
      var pr := inp.ParsePrimary(p, indent, NewContext());
      (r.Success? ==> (r.value.Assignment? && inp.At(r.next - 1, Semicolon)) || r.value.Expr?)
      && (r.Success? && r.value.Expr? ==>
            pr.Success? && !inp.At(pr.next, Eq) && r == inp.ExprStmtRest(pr.value, pr.next, indent))
  {
  }

  /**
   * An expression statement: the expression, then a `;` if one follows,
   * which is consumed. Unless the expression is a block or a conditional,
   * the statement is a tail expression exactly when no `;` followed it.
   */
  lemma ExprStmtSemi(inp: Input, primary: AstExpr, p: nat, indent: nat)
    requires p <= |inp.items|
    ensures var r := inp.ExprStmtRest(primary, p, indent);
      var e := inp.ParseExprWith(primary, p, Lowest, indent, NewContext());
      (r.Success? <==> e.Success?)
      && (e.Failure? ==> r == Failure(e.stop))
      && (r.Success? ==>
            r.value.expr == e.value
            && r.next == (if inp.At(e.next, Semicolon) then e.next + 1 else e.next)
            && (!e.value.BlockExpr? && !e.value.ConditionalExpr? ==>
                  (IsTailExpr(r.value) <==> !inp.At(e.next, Semicolon))))
  {
  }

  // ---------------------------------------------------------------------------
  // Conditionals and `expr_has_semi`
  // ---------------------------------------------------------------------------

  /** An `else` chain the parser builds: a block, or a conditional whose `else` is absent or again such a chain. */
  predicate ElseChainClosed(e: AstExpr)
  {
    match e
    case BlockExpr(_) => true
    case ConditionalExpr(c) => c.elseBlock.None? || ElseChainClosed(c.elseBlock.value)
    case _ => false
  }

  /** Every conditional `parse_conditional` builds has an `else` chain of blocks and conditionals. */
  lemma {:induction false} ConditionalClosed(inp: Input, p: nat, indent: nat)
    requires p <= |inp.items|
    ensures var r := inp.ParseConditional(p, indent);
      r.Success? ==> ElseChainClosed(ConditionalExpr(r.value))
    decreases |inp.items| - p, 2
  {
    var r1 := inp.ParseExpr(p, Lowest, indent, NewContext().WithoutAnnotationParsing());
    if r1.Success? {
      var r2 := inp.GetNextToken(r1.next);
      if r2.Success? && r2.value.1 == Colon {
        ConditionalBodyClosed(inp, r1.value, r2.next, indent);
      }
    }
  }

  lemma {:induction false} ConditionalBodyClosed(inp: Input, cond: AstExpr, p: nat, indent: nat)
    requires p <= |inp.items|
    ensures var r := inp.ConditionalBody(cond, p, indent);
      r.Success? ==> ElseChainClosed(ConditionalExpr(r.value))
    decreases |inp.items| - p, 1
  {
    var r1 := if inp.At(p, Newline) then inp.Eat(p + 1, Indent) else Success(p, ());
    if r1.Success? {
      var r2 := inp.ParseBlock(r1.next, indent + 1);
      if r2.Success? {
        ElseBlockClosed(inp, r2.next, indent);
      }
    }
  }

  /** What `else_block` returns, when anything, is a block or a conditional with a closed chain. */
  lemma {:induction false} ElseBlockClosed(inp: Input, p: nat, indent: nat)
    requires p <= |inp.items|
    ensures var r := inp.ElseBlock(p, indent);
      r.Success? && r.value.Some? ==> ElseChainClosed(r.value.value)
    decreases |inp.items| - p, 0
  {
    if inp.At(p, Else) {
      var r2 := inp.GetNextToken(p + 1);
      if r2.Success? && r2.value.1 == If {
        ConditionalClosed(inp, r2.next, indent);
      }
    }
  }

  /**
   * For a block or a closed conditional, `expr_has_semi` is decided by the
   * blocks alone: whether a `;` follows the statement does not matter.
   */
  lemma {:induction false} ClosedIgnoresNext(e: AstExpr, semiNext: bool)
    requires ElseChainClosed(e)
    ensures ExprHasSemi(e, semiNext) == ExprHasSemi(e, false)
  {
    if e.ConditionalExpr? && e.cond.elseBlock.Some? {
      ClosedIgnoresNext(e.cond.elseBlock.value, semiNext);
    }
  }

  /**
   * After `else`, `if` nests another conditional, `:` opens a block one
   * level deeper, and any other token is an `ExpectedColon`.
   */
  lemma ElseBranchShape(inp: Input, p: nat, indent: nat)
    requires p <= |inp.items|
    ensures var r := inp.ElseBranch(p, indent);
      (r.Success? && inp.At(p, If) ==> r.value.value.ConditionalExpr?)
      && (r.Success? && inp.At(p, Colon) ==> r.value.value.BlockExpr? && r.value.value.block.indent == indent + 1)
      && (p < |inp.items| && inp.items[p].Spanned? && inp.items[p].token != If && inp.items[p].token != Colon ==>
            r == Failure(Raised(ExpectedColon(inp.items[p].at, inp.Len(inp.items[p].token)))))
  {
  }

  /**
   * `parse_conditional`: the condition is parsed with annotation parsing
   * off; the end of input or a token other than `:` after it stops parsing
   * there; on success the condition is kept and the block is one level
   * deeper.
   */
  lemma ConditionalShape(inp: Input, p: nat, indent: nat)
    requires p <= |inp.items|
    ensures var c := inp.ParseExpr(p, Lowest, indent, NewContext().WithoutAnnotationParsing());
      var r := inp.ParseConditional(p, indent);
      (c.Failure? ==> r == Failure(c.stop))
      && (c.Success? && c.next == |inp.items| ==> r == Failure(Raised(UnexpectedEnd)))
      && (c.Success? && c.next < |inp.items| && inp.items[c.next].Spanned? && inp.items[c.next].token != Colon ==>
            r == Failure(Raised(ExpectedColon(inp.items[c.next].at, inp.Len(inp.items[c.next].token)))))
      && (r.Success? ==>
            c.Success? && inp.At(c.next, Colon) && r.value.condition == c.value && r.value.ifBlock.indent == indent + 1)
  {
  }

  // ---------------------------------------------------------------------------
  // Type annotations
  // ---------------------------------------------------------------------------

  /**
   * `parse_type_decl`: at most one `mut`, then an identifier, giving the
   * named type wrapped in `Mutable` exactly when `mut` was read; anything
   * else, a second `mut` included, is an `ExpectedTypeAnnotation`.
   */
  lemma TypeDeclShape(inp: Input, p: nat)
    requires p <= |inp.items|
    ensures var r := inp.ParseTypeDecl(p);
      var q := if inp.At(p, Mut) then p + 1 else p;
      (r.Success? <==> inp.AtIdent(q))
      && (r.Success? ==>
            r.next == q + 1
            && r.value == (if inp.At(p, Mut) then Mutable(Dynamic(inp.items[q].token.name))
                           else Dynamic(inp.items[q].token.name)))
      && (q < |inp.items| && inp.items[q].Spanned? && !inp.items[q].token.Ident? ==>
            r == Failure(Raised(ExpectedTypeAnnotation(inp.items[q].at, inp.Len(inp.items[q].token)))))
  {
  }
}
