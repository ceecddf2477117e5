/**
 * How the expression routines of src/parser.rs group what they read:
 * the postfix loop of `parse_postfix_expr`, one round of the
 * precedence-climbing loop of `parse_expr_with`, what that loop adds to the
 * expression it starts from, the grouping of operator chains, and the two
 * tests at the end of the file.
 */
module ExprProps {
  import opened Util
  import opened Tokens
  import opened Ast
  import opened ParseSpec

  // ---------------------------------------------------------------------------
  // Postfix operations
  // ---------------------------------------------------------------------------

  /** `e` is `inner` followed by calls and attribute accesses, each applied to what came before. */
  predicate Wraps(e: AstExpr, inner: AstExpr)
    decreases e
  {
    e == inner
    || (e.CallExpr? && Wraps(e.calledExpr, inner))
    || (e.AttrAccess? && Wraps(e.expr, inner))
  }

  lemma {:induction false} WrapsTrans(a: AstExpr, b: AstExpr, c: AstExpr)
    requires Wraps(a, b) && Wraps(b, c)
    ensures Wraps(a, c)
    decreases a
  {
    if a != b {
      if a.CallExpr? && Wraps(a.calledExpr, b) {
        WrapsTrans(a.calledExpr, b, c);
      } else {
        WrapsTrans(a.expr, b, c);
      }
    }
  }

  /** `parse_call_expr` builds a call whose callee is the expression it was given. */
  lemma CallShape(inp: Input, fnExpr: AstExpr, p: nat)
    requires p <= |inp.items|
    ensures var r := inp.ParseCallExpr(fnExpr, p);
      r.Success? ==> r.value.CallExpr? && r.value.calledExpr == fnExpr
  {
  }

  /**
   * `parse_postfix_expr`: with neither `(` nor `.` next, `lhs` comes back
   * unchanged; after `(` the first step is a call of `lhs`, after `.` an
   * attribute access on `lhs`, and the loop goes on from there. It stops
   * only where neither `(` nor `.` follows.
   */
  lemma {:induction false} PostfixShape(inp: Input, lhs: AstExpr, p: nat)
    requires p <= |inp.items|
    ensures var r := inp.ParsePostfix(lhs, p);
      (!inp.At(p, LParen) && !inp.At(p, Dot) ==> r == Success(p, lhs))
      && (r.Success? ==> Wraps(r.value, lhs) && !inp.At(r.next, LParen) && !inp.At(r.next, Dot))
      && (r.Success? && inp.At(p, LParen) ==>
            var c := inp.ParseCallExpr(lhs, p);
            c.Success? && c.value.CallExpr? && c.value.calledExpr == lhs && Wraps(r.value, c.value))
      && (r.Success? && inp.At(p, Dot) ==>
            var a := inp.ParseAttrAccess(lhs, p);
            a.Success? && a.value.AttrAccess? && a.value.expr == lhs && Wraps(r.value, a.value))
    decreases |inp.items| - p
  {
    if inp.At(p, LParen) {
      var c := inp.ParseCallExpr(lhs, p);
      if c.Success? {
        CallShape(inp, lhs, p);
        PostfixShape(inp, c.value, c.next);
        var r := inp.ParsePostfix(c.value, c.next);
        assert inp.ParsePostfix(lhs, p) == r;
        if r.Success? {
          assert Wraps(c.value, lhs);
          WrapsTrans(r.value, c.value, lhs);
        }
      }
    } else if inp.At(p, Dot) {
      var a := inp.ParseAttrAccess(lhs, p);
      if a.Success? {
        PostfixShape(inp, a.value, a.next);
        var r := inp.ParsePostfix(a.value, a.next);
        assert inp.ParsePostfix(lhs, p) == r;
        if r.Success? {
          assert Wraps(a.value, lhs);
          WrapsTrans(r.value, a.value, lhs);
        }
      }
    }
  }

  // ---------------------------------------------------------------------------
  // The loop of `parse_expr_with`
  // ---------------------------------------------------------------------------

  /**
   * One round of the loop: the right operand is parsed at the operator's own
   * precedence and joined to `lhs` in a `BinExpr`, to which postfix
   * operations then apply; if the operand fails, so does the round.
   */
  lemma OperatorStepShape(inp: Input, lhs: AstExpr, op: Operator, p: nat, indent: nat, ctx: ParseContext)
    requires p < |inp.items|
    ensures var r := inp.OperatorStep(lhs, op, p, indent, ctx);
      var rhs := inp.ParseExpr(p + 1, inp.table.precedence(op), indent, ctx);
      (rhs.Failure? ==> r == Failure(rhs.stop))
      && (r.Success? ==> rhs.Success? && rhs.next <= r.next && Wraps(r.value, BinExpr(lhs, op, rhs.value)))
      && (rhs.Success? && !inp.At(rhs.next, LParen) && !inp.At(rhs.next, Dot) ==>
            r == Success(rhs.next, BinExpr(lhs, op, rhs.value)))
  {
    var rhs := inp.ParseExpr(p + 1, inp.table.precedence(op), indent, ctx);
    if rhs.Success? {
      PostfixShape(inp, BinExpr(lhs, op, rhs.value), rhs.next);
    }
  }

  /**
   * `e` is `lhs` extended to the right: by calls, by attribute accesses and
   * by binary operators of precedence at least `prec` whose left operand is
   * what was built so far.
   */
  predicate ExtendsLeft(table: TokenTable, e: AstExpr, lhs: AstExpr, prec: Precedence)
    decreases e
  {
    e == lhs
    || (e.CallExpr? && ExtendsLeft(table, e.calledExpr, lhs, prec))
    || (e.AttrAccess? && ExtendsLeft(table, e.expr, lhs, prec))
    || (e.BinExpr? && !Below(table.precedence(e.op), prec) && ExtendsLeft(table, e.l, lhs, prec))
  }

  lemma {:induction false} ExtendsTrans(table: TokenTable, a: AstExpr, b: AstExpr, c: AstExpr, prec: Precedence)
    requires ExtendsLeft(table, a, b, prec) && ExtendsLeft(table, b, c, prec)
    ensures ExtendsLeft(table, a, c, prec)
    decreases a
  {
    if a != b {
      if a.CallExpr? && ExtendsLeft(table, a.calledExpr, b, prec) {
        ExtendsTrans(table, a.calledExpr, b, c, prec);
      } else if a.AttrAccess? && ExtendsLeft(table, a.expr, b, prec) {
        ExtendsTrans(table, a.expr, b, c, prec);
      } else {
        ExtendsTrans(table, a.l, b, c, prec);
      }
    }
  }

  lemma {:induction false} WrapsExtends(table: TokenTable, a: AstExpr, b: AstExpr, prec: Precedence)
    requires Wraps(a, b)
    ensures ExtendsLeft(table, a, b, prec)
    decreases a
  {
    if a != b {
      if a.CallExpr? && Wraps(a.calledExpr, b) {
        WrapsExtends(table, a.calledExpr, b, prec);
      } else {
        WrapsExtends(table, a.expr, b, prec);
      }
    }
  }

  /**
   * The loop of `parse_expr_with` only adds to the right of `lhs`, and every
   * operator it applies binds at least as tightly as `prec`.
   */
  lemma {:induction false} ExprLoopExtends(inp: Input, lhs: AstExpr, p: nat, prec: Precedence, indent: nat, ctx: ParseContext)
    requires p <= |inp.items|
    ensures var r := inp.ExprLoop(lhs, p, prec, indent, ctx);
      r.Success? ==> ExtendsLeft(inp.table, r.value, lhs, prec)
    decreases |inp.items| - p
  {
    match inp.NextAction(p, prec, ctx)
    case StopAt(q) =>
      PostfixShape(inp, lhs, q);
      var r := inp.ParsePostfix(lhs, q);
      if r.Success? {
        WrapsExtends(inp.table, r.value, lhs, prec);
      }
    case Apply(op) =>
      var s := inp.OperatorStep(lhs, op, p, indent, ctx);
      if s.Success? {
        OperatorStepShape(inp, lhs, op, p, indent, ctx);
        var bin := BinExpr(lhs, op, inp.ParseExpr(p + 1, inp.table.precedence(op), indent, ctx).value);
        WrapsExtends(inp.table, s.value, bin, prec);
        assert ExtendsLeft(inp.table, bin, lhs, prec);
        ExtendsTrans(inp.table, s.value, bin, lhs, prec);
        ExprLoopExtends(inp, s.value, s.next, prec, indent, ctx);
        var r := inp.ExprLoop(s.value, s.next, prec, indent, ctx);
        if r.Success? {
          ExtendsTrans(inp.table, r.value, s.value, lhs, prec);
        }
      }
  }

  /** `parse_expr_with` extends `lhs` to the right only, with operators binding at least as tightly as `prec`. */
  lemma ParseExprWithExtends(inp: Input, lhs: AstExpr, p: nat, prec: Precedence, indent: nat, ctx: ParseContext)
    requires p <= |inp.items|
    ensures var r := inp.ParseExprWith(lhs, p, prec, indent, ctx);
      r.Success? ==> ExtendsLeft(inp.table, r.value, lhs, prec)
  {
    PostfixShape(inp, lhs, p);
    var s := inp.ParsePostfix(lhs, p);
    if s.Success? {
      WrapsExtends(inp.table, s.value, lhs, prec);
      ExprLoopExtends(inp, s.value, s.next, prec, indent, ctx);
      var r := inp.ExprLoop(s.value, s.next, prec, indent, ctx);
      if r.Success? {
        ExtendsTrans(inp.table, r.value, s.value, lhs, prec);
      }
    }
  }

  // ---------------------------------------------------------------------------
  // Operator chains
  // ---------------------------------------------------------------------------

  /** The item at `q` is an infix operator that starts no postfix operation, annotation or stop of the loop. */
  predicate InfixAt(inp: Input, q: nat)
  {
    q < |inp.items| && inp.items[q].Spanned?
    && inp.items[q].token !in {LParen, RParen, Dot, Semicolon, Colon}
    && inp.table.asOperator(inp.items[q].token).Some?
  }

  function OpAt(inp: Input, q: nat): Operator
    requires InfixAt(inp, q)
  {
    inp.table.asOperator(inp.items[q].token).value
  }

  function LevelAt(inp: Input, q: nat): Precedence
    requires InfixAt(inp, q)
  {
    inp.table.precedence(OpAt(inp, q))
  }

  /**
   * `x0 o1 x1 … on xn` from `p`: identifiers separated by `n` infix
   * operators whose precedences never fall, the first not below `level`.
   */
  predicate Chain(inp: Input, p: nat, n: nat, level: Precedence)
    decreases n
  {
    inp.AtIdent(p)
    && (n > 0 ==> InfixAt(inp, p + 1) && !Below(LevelAt(inp, p + 1), level) && Chain(inp, p + 2, n - 1, LevelAt(inp, p + 1)))
  }

  /** The identifier at `p` as an expression. */
  function Leaf(inp: Input, p: nat): AstExpr
    requires inp.AtIdent(p)
  {
    LitExpr(IdentLit(inp.items[p].token))
  }

  /** The right-nested tree `x0 o1 (x1 o2 (… on xn))` of a chain. */
  function RightNested(inp: Input, p: nat, n: nat, level: Precedence): AstExpr
    requires Chain(inp, p, n, level)
    decreases n
  {
    if n == 0 then Leaf(inp, p)
    else BinExpr(Leaf(inp, p), OpAt(inp, p + 1), RightNested(inp, p + 2, n - 1, LevelAt(inp, p + 1)))
  }

  /**
   * The item at `q` ends an expression parsed at `prec` and is left in place:
   * the end, a lex error, `;`, a token that is no operator or an operator
   * below `prec`; it starts no postfix operation and no annotation.
   */
  predicate Halts(inp: Input, q: nat, prec: Precedence)
  {
    q <= |inp.items|
    && (q < |inp.items| && inp.items[q].Spanned? ==>
          var t := inp.items[q].token;
          t !in {LParen, RParen, Dot, Colon}
          && (t == Semicolon || inp.table.asOperator(t).None? || Below(inp.table.precedence(inp.table.asOperator(t).value), prec)))
  }

  /** A token that ends an expression at some precedence ends it at every higher one. */
  lemma HaltsAbove(inp: Input, q: nat, prec: Precedence, level: Precedence)
    requires Halts(inp, q, prec) && !Below(level, prec)
    ensures Halts(inp, q, level)
  {
  }

  /** An identifier followed by no `(`, `.` or `:` is a primary expression of its own. */
  lemma IdentPrimary(inp: Input, p: nat, indent: nat, ctx: ParseContext)
    requires inp.AtIdent(p) && !inp.At(p + 1, LParen) && !inp.At(p + 1, Dot) && !inp.At(p + 1, Colon)
    ensures inp.ParsePrimary(p, indent, ctx) == Success(p + 1, Leaf(inp, p))
  {
    PostfixShape(inp, Leaf(inp, p), p + 1);
  }

  /** The loop ends at once, leaving `lhs` as it is, at an item that halts it. */
  lemma LoopHalts(inp: Input, lhs: AstExpr, q: nat, prec: Precedence, indent: nat, ctx: ParseContext)
    requires Halts(inp, q, prec)
    ensures inp.ExprLoop(lhs, q, prec, indent, ctx) == Success(q, lhs)
  {
    assert inp.NextAction(q, prec, ctx) == StopAt(q);
    PostfixShape(inp, lhs, q);
  }

  /** A round of the loop at an infix operator that is not below `prec`, whose right operand is followed by no postfix operation. */
  lemma LoopApplies(inp: Input, lhs: AstExpr, q: nat, prec: Precedence, indent: nat, ctx: ParseContext)
    requires InfixAt(inp, q) && !Below(LevelAt(inp, q), prec)
    requires var rhs := inp.ParseExpr(q + 1, LevelAt(inp, q), indent, ctx);
      rhs.Success? && !inp.At(rhs.next, LParen) && !inp.At(rhs.next, Dot)
    ensures var rhs := inp.ParseExpr(q + 1, LevelAt(inp, q), indent, ctx);
      inp.ExprLoop(lhs, q, prec, indent, ctx) == inp.ExprLoop(BinExpr(lhs, OpAt(inp, q), rhs.value), rhs.next, prec, indent, ctx)
  {
    assert inp.NextAction(q, prec, ctx) == Apply(OpAt(inp, q));
    OperatorStepShape(inp, lhs, OpAt(inp, q), q, indent, ctx);
  }

  /** The parse of a chain from its first identifier: the primary, then the loop from the first operator. */
  lemma ChainStart(inp: Input, p: nat, prec: Precedence, indent: nat, ctx: ParseContext)
    requires inp.AtIdent(p) && !inp.At(p + 1, LParen) && !inp.At(p + 1, Dot) && !inp.At(p + 1, Colon)
    ensures inp.ParseExpr(p, prec, indent, ctx) == inp.ExprLoop(Leaf(inp, p), p + 1, prec, indent, ctx)
  {
    IdentPrimary(inp, p, indent, ctx);
    PostfixShape(inp, Leaf(inp, p), p + 1);
  }

  /**
   * Operators group to the right as long as their precedence does not fall:
   * a chain `x0 o1 x1 … on xn`, parsed at a precedence its first operator is
   * not below and followed by an item that ends it, is
   * `x0 o1 (x1 o2 (… on xn))`, and parsing stops right after `xn`. With
   * equal precedences throughout, this is `a + b + c` read as `a + (b + c)`.
   */
  lemma {:induction false} ChainGroupsRight(inp: Input, p: nat, n: nat, prec: Precedence, indent: nat, ctx: ParseContext)
    requires Chain(inp, p, n, prec) && Halts(inp, p + 2 * n + 1, prec)
    ensures inp.ParseExpr(p, prec, indent, ctx) == Success(p + 2 * n + 1, RightNested(inp, p, n, prec))
    decreases n
  {
    if n == 0 {
      ChainStart(inp, p, prec, indent, ctx);
      LoopHalts(inp, Leaf(inp, p), p + 1, prec, indent, ctx);
    } else {
      var level := LevelAt(inp, p + 1);
      assert p + 2 + 2 * (n - 1) + 1 == p + 2 * n + 1;
      HaltsAbove(inp, p + 2 * n + 1, prec, level);
      ChainGroupsRight(inp, p + 2, n - 1, level, indent, ctx);
      ChainStep(inp, p, n, prec, indent, ctx);
    }
  }

  /** The first operator of a chain takes the rest of the chain as its right operand. */
  lemma ChainStep(inp: Input, p: nat, n: nat, prec: Precedence, indent: nat, ctx: ParseContext)
    requires n > 0 && Chain(inp, p, n, prec) && Halts(inp, p + 2 * n + 1, prec)
    requires inp.ParseExpr(p + 2, LevelAt(inp, p + 1), indent, ctx)
      == Success(p + 2 * n + 1, RightNested(inp, p + 2, n - 1, LevelAt(inp, p + 1)))
    ensures inp.ParseExpr(p, prec, indent, ctx) == Success(p + 2 * n + 1, RightNested(inp, p, n, prec))
  {
    ChainStart(inp, p, prec, indent, ctx);
    LoopApplies(inp, Leaf(inp, p), p + 1, prec, indent, ctx);
    LoopHalts(inp, RightNested(inp, p, n, prec), p + 2 * n + 1, prec, indent, ctx);
  }

  /**
   * An operator of higher precedence binds tighter whichever side it is on:
   * `a o1 b o2 c` is `a o1 (b o2 c)` when `o2` binds tighter than `o1`
   * (`a + b * c`), and `(a o1 b) o2 c` when `o1` does (`a * b + c`).
   */
  lemma TighterBindsFirst(inp: Input, p: nat, prec: Precedence, indent: nat, ctx: ParseContext)
    requires inp.AtIdent(p) && InfixAt(inp, p + 1) && inp.AtIdent(p + 2) && InfixAt(inp, p + 3) && inp.AtIdent(p + 4)
    requires Halts(inp, p + 5, prec) && !Below(LevelAt(inp, p + 1), prec) && !Below(LevelAt(inp, p + 3), prec)
    ensures var a, o1, b, o2, c := Leaf(inp, p), OpAt(inp, p + 1), Leaf(inp, p + 2), OpAt(inp, p + 3), Leaf(inp, p + 4);
      var r := inp.ParseExpr(p, prec, indent, ctx);
      (Below(LevelAt(inp, p + 1), LevelAt(inp, p + 3)) ==> r == Success(p + 5, BinExpr(a, o1, BinExpr(b, o2, c))))
      && (Below(LevelAt(inp, p + 3), LevelAt(inp, p + 1)) ==> r == Success(p + 5, BinExpr(BinExpr(a, o1, b), o2, c)))
  {
    var l1, l3 := LevelAt(inp, p + 1), LevelAt(inp, p + 3);
    if Below(l1, l3) {
      assert Chain(inp, p + 4, 0, l3);
      assert Chain(inp, p, 2, prec);
      ChainGroupsRight(inp, p, 2, prec, indent, ctx);
    } else if Below(l3, l1) {
      TighterLeft(inp, p, prec, indent, ctx);
    }
  }

  /** `a o1 b o2 c` with `o1` above `o2` is `(a o1 b) o2 c`. */
  lemma TighterLeft(inp: Input, p: nat, prec: Precedence, indent: nat, ctx: ParseContext)
    requires inp.AtIdent(p) && InfixAt(inp, p + 1) && inp.AtIdent(p + 2) && InfixAt(inp, p + 3) && inp.AtIdent(p + 4)
    requires Halts(inp, p + 5, prec) && !Below(LevelAt(inp, p + 3), prec) && Below(LevelAt(inp, p + 3), LevelAt(inp, p + 1))
    ensures inp.ParseExpr(p, prec, indent, ctx)
      == Success(p + 5, BinExpr(BinExpr(Leaf(inp, p), OpAt(inp, p + 1), Leaf(inp, p + 2)), OpAt(inp, p + 3), Leaf(inp, p + 4)))
  {
    var ab := BinExpr(Leaf(inp, p), OpAt(inp, p + 1), Leaf(inp, p + 2));
    TighterLeftOperand(inp, p, prec, indent, ctx);
    TighterLeftRest(inp, ab, p + 3, prec, indent, ctx);
  }

  /** In `a o1 b o2 c` with `o1` above `o2`, `o1` takes `b` alone, and the loop goes on at `o2` with `a o1 b`. */
  lemma TighterLeftOperand(inp: Input, p: nat, prec: Precedence, indent: nat, ctx: ParseContext)
    requires inp.AtIdent(p) && InfixAt(inp, p + 1) && inp.AtIdent(p + 2) && InfixAt(inp, p + 3)
    requires !Below(LevelAt(inp, p + 3), prec) && Below(LevelAt(inp, p + 3), LevelAt(inp, p + 1))
    ensures inp.ParseExpr(p, prec, indent, ctx)
      == inp.ExprLoop(BinExpr(Leaf(inp, p), OpAt(inp, p + 1), Leaf(inp, p + 2)), p + 3, prec, indent, ctx)
  {
    var l1 := LevelAt(inp, p + 1);
    ChainStart(inp, p, prec, indent, ctx);
    assert Chain(inp, p + 2, 0, l1) && Halts(inp, p + 3, l1);
    ChainGroupsRight(inp, p + 2, 0, l1, indent, ctx);
    LoopApplies(inp, Leaf(inp, p), p + 1, prec, indent, ctx);
  }

  /** The last round of `a o1 b o2 c`: `o2` applied to what was built and `c`, and the loop stops. */
  lemma TighterLeftRest(inp: Input, lhs: AstExpr, q: nat, prec: Precedence, indent: nat, ctx: ParseContext)
    requires InfixAt(inp, q) && inp.AtIdent(q + 1) && Halts(inp, q + 2, prec) && !Below(LevelAt(inp, q), prec)
    ensures inp.ExprLoop(lhs, q, prec, indent, ctx) == Success(q + 2, BinExpr(lhs, OpAt(inp, q), Leaf(inp, q + 1)))
  {
    var l3 := LevelAt(inp, q);
    HaltsAbove(inp, q + 2, prec, l3);
    assert Chain(inp, q + 1, 0, l3);
    ChainGroupsRight(inp, q + 1, 0, l3, indent, ctx);
    LoopApplies(inp, lhs, q, prec, indent, ctx);
    LoopHalts(inp, BinExpr(lhs, OpAt(inp, q), Leaf(inp, q + 1)), q + 2, prec, indent, ctx);
  }

  // ---------------------------------------------------------------------------
  // The two tests at the end of src/parser.rs
  // ---------------------------------------------------------------------------


  /** An identifier as an expression. */
  function Id(name: string): AstExpr
  {
    LitExpr(IdentLit(Ident(name)))
  }

  /** A token table in which `+` is the operator `OpAdd` at `AddSub` and no identifier is an operator. */
  ghost predicate AddTable(table: TokenTable)
  {
    table.asOperator(Add) == Some(OpAdd) && table.precedence(OpAdd) == AddSub
    && forall name :: table.asOperator(Ident(name)) == None
  }

  /** The operand `b` at the end of the tokens, parsed at the precedence of `+`. */
  lemma LastOperand(inp: Input, p: nat, name: string)
    requires AddTable(inp.table) && |inp.items| == p + 1 && inp.items[p] == Spanned(p, Ident(name))
    ensures inp.ParseExpr(p, AddSub, 0, NewContext()) == Success(p + 1, Id(name))
  {
    var ctx := NewContext();
    assert inp.ParsePostfix(Id(name), p + 1) == Success(p + 1, Id(name));
    assert inp.NextAction(p + 1, AddSub, ctx) == StopAt(p + 1);
    assert inp.ExprLoop(Id(name), p + 1, AddSub, 0, ctx) == Success(p + 1, Id(name));
    assert inp.ParsePrimary(p, 0, ctx) == Success(p + 1, Id(name));
  }

  /** `a + b` parses as `BinExpr(a, Add, b)` (`test_parse_add`). */
  lemma ParseAdd(table: TokenTable)
    requires AddTable(table)
    ensures Input([Spanned(0, Ident("a")), Spanned(1, Add), Spanned(2, Ident("b"))], table)
      .ParseExpr(0, Lowest, 0, NewContext()) == Success(3, BinExpr(Id("a"), OpAdd, Id("b")))
  {
    var inp := Input([Spanned(0, Ident("a")), Spanned(1, Add), Spanned(2, Ident("b"))], table);
    var ctx := NewContext();
    var sum := BinExpr(Id("a"), OpAdd, Id("b"));
    LastOperand(inp, 2, "b");
    assert inp.OperatorStep(Id("a"), OpAdd, 1, 0, ctx) == Success(3, sum);
    assert inp.ExprLoop(sum, 3, Lowest, 0, ctx) == Success(3, sum);
    assert inp.NextAction(1, Lowest, ctx) == Apply(OpAdd);
    assert inp.ExprLoop(Id("a"), 1, Lowest, 0, ctx) == Success(3, sum);
    assert inp.ParsePrimary(0, 0, ctx) == Success(1, Id("a"));
  }

  /** `a + b + c` groups to the right, as `a + (b + c)` (`test_parse_add_multi`). */
  lemma ParseAddMulti(table: TokenTable)
    requires AddTable(table)
    ensures Input([Spanned(0, Ident("a")), Spanned(1, Add), Spanned(2, Ident("b")), Spanned(3, Add), Spanned(4, Ident("c"))], table)
      .ParseExpr(0, Lowest, 0, NewContext()) == Success(5, BinExpr(Id("a"), OpAdd, BinExpr(Id("b"), OpAdd, Id("c"))))
  {
    var inp := Input([Spanned(0, Ident("a")), Spanned(1, Add), Spanned(2, Ident("b")), Spanned(3, Add), Spanned(4, Ident("c"))], table);
    var ctx := NewContext();
    var inner := BinExpr(Id("b"), OpAdd, Id("c"));
    var outer := BinExpr(Id("a"), OpAdd, inner);
    RightOperand(inp, table);
    assert inp.OperatorStep(Id("a"), OpAdd, 1, 0, ctx) == Success(5, outer);
    assert inp.ExprLoop(outer, 5, Lowest, 0, ctx) == Success(5, outer);
    assert inp.NextAction(1, Lowest, ctx) == Apply(OpAdd);
    assert inp.ExprLoop(Id("a"), 1, Lowest, 0, ctx) == Success(5, outer);
    assert inp.ParsePrimary(0, 0, ctx) == Success(1, Id("a"));
  }

  /** In `a + b + c`, the right operand of the first `+` is `b + c`: the second `+` is not below the first. */
  lemma RightOperand(inp: Input, table: TokenTable)
    requires AddTable(table)
    requires inp == Input([Spanned(0, Ident("a")), Spanned(1, Add), Spanned(2, Ident("b")), Spanned(3, Add), Spanned(4, Ident("c"))], table)
    ensures inp.ParseExpr(2, AddSub, 0, NewContext()) == Success(5, BinExpr(Id("b"), OpAdd, Id("c")))
  {
    var ctx := NewContext();
    var inner := BinExpr(Id("b"), OpAdd, Id("c"));
    LastOperand(inp, 4, "c");
    assert inp.OperatorStep(Id("b"), OpAdd, 3, 0, ctx) == Success(5, inner);
    assert inp.ExprLoop(inner, 5, AddSub, 0, ctx) == Success(5, inner);
    assert inp.NextAction(3, AddSub, ctx) == Apply(OpAdd);
    assert inp.ExprLoop(Id("b"), 3, AddSub, 0, ctx) == Success(5, inner);
    assert inp.ParsePrimary(2, 0, ctx) == Success(3, Id("b"));
  }
}
