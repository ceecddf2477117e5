/**
 * The lexer as an iterator (src/lexer.rs, `impl Iterator for Lexer`): the
 * sequence of items successive calls of `next` yield, and what the
 * indentation machinery promises over a whole run.
 *
 * The stream stops at the first item that is not a token: the end of input,
 * a lex error, or a process abort (the source's `assert!` and `expect`).
 */
module LexStream {
  import opened Util
  import opened Tokens
  import opened Lexing
  import opened LexingProps

  /** One item of the stream: a spanned token, a lex error, or the abort that ends the process. */
  datatype Item = Tok(at: nat, token: Token) | Bad(err: LexErr) | Crash(why: LexAbort)

  /** Pull items from `st` until the lexer reports the end, an error or an abort; also the final state. */
  function Run(st: LexState): (r: (seq<Item>, LexState))
    requires Coherent(st)
    ensures Coherent(r.1) && r.1.src == st.src
    decreases |Rest(st)|, st.indentLevel
  {
    var step := NextSpec(st);
    match step.0
    case End => ([], step.1)
    case Error(e) => ([Bad(e)], step.1)
    case Abort(w) => ([Crash(w)], step.1)
    case Emit(at, t) =>
      var more := Run(step.1);
      ([Tok(at, t)] + more.0, more.1)
  }

  /** The items of a whole source text. */
  function Lex(src: string): seq<Item>
  {
    Run(Start(src)).0
  }

  // ---------------------------------------------------------------------------
  // Positions
  // ---------------------------------------------------------------------------

  /** Every token position lies in `[lo, hi)` and positions never go backwards. */
  predicate InOrder(items: seq<Item>, lo: nat, hi: nat)
  {
    forall i :: 0 <= i < |items| && items[i].Tok? ==>
      lo <= items[i].at < hi
      && forall j :: i < j < |items| && items[j].Tok? ==> items[i].at <= items[j].at
  }

  lemma {:induction false} RunInOrder(st: LexState)
    requires Coherent(st)
    ensures InOrder(Run(st).0, st.byte, |st.src|)
    decreases |Rest(st)|, st.indentLevel
  {
    var step := NextSpec(st);
    NextAccounts(st);
    if step.0.Emit? {
      RunInOrder(step.1);
      var items := Run(st).0;
      assert items == [Tok(step.0.at, step.0.token)] + Run(step.1).0;
    }
  }

  // ---------------------------------------------------------------------------
  // Indentation
  // ---------------------------------------------------------------------------

  /** `Indent` items minus `Dedent` items. */
  function NetIndent(items: seq<Item>): int
  {
    if items == [] then 0
    else (if items[0].Tok? && items[0].token == Indent then 1
          else if items[0].Tok? && items[0].token == Dedent then -1
          else 0) + NetIndent(items[1..])
  }

  /** Each `Indent` raises the level by one and each `Dedent` lowers it by one; nothing else moves it. */
  lemma {:induction false} IndentBalance(st: LexState)
    requires Coherent(st)
    ensures NetIndent(Run(st).0) == Run(st).1.indentLevel - st.indentLevel
    decreases |Rest(st)|, st.indentLevel
  {
    var step := NextSpec(st);
    if step.0.Emit? {
      IndentBalance(step.1);
      var items := Run(st).0;
      assert items[1..] == Run(step.1).0;
    }
  }

  /** Spaces not directly after a newline are skipped one by one. */
  lemma {:induction false} SkipSpaces(st: LexState, j: nat)
    requires Coherent(st) && !st.justAfterNewline && j <= |Rest(st)|
    requires forall i :: 0 <= i < j ==> Rest(st)[i] == ' '
    ensures NextSpec(st) == NextSpec(Advance(st, j))
    decreases j
  {
    if j > 0 {
      var st1 := Advance(st, 1);
      assert NextSpec(st) == NextSpec(st1);
      SkipSpaces(st1, j - 1);
      assert Advance(st1, j - 1) == Advance(st, j);
    }
  }

  lemma {:induction false} SpaceRunLength(n: nat, t: string)
    requires t == [] || t[0] != ' '
    ensures RunLength(Repeat(' ', n) + t, SpaceChars) == n
    decreases n
  {
    if n > 0 {
      assert (Repeat(' ', n) + t)[1..] == Repeat(' ', n - 1) + t;
      SpaceRunLength(n - 1, t);
    } else {
      assert Repeat(' ', n) + t == t;
    }
  }

  /*
   * A line that starts with `n` spaces at indent level `L` (the `Spaces` arm
   * of `next`): a width that is not a multiple of four aborts; one level
   * deeper is an `Indent`; more than one level deeper aborts; any shallower
   * width is one `Dedent`; the same width is skipped without a token. Each
   * layout token covers four spaces.
   */

  lemma IndentNotMultipleOfFourAborts(st: LexState, n: nat, t: string)
    requires Coherent(st) && st.justAfterNewline && n > 0
    requires Rest(st) == Repeat(' ', n) + t && (t == [] || t[0] != ' ')
    requires n % 4 != 0
    ensures NextSpec(st).0 == Abort(IndentNotMultipleOfFour)
  {
    LineStartUnfolds(st, n, t);
  }

  lemma IndentOpensBlock(st: LexState, n: nat, t: string)
    requires Coherent(st) && st.justAfterNewline && n > 0
    requires Rest(st) == Repeat(' ', n) + t && (t == [] || t[0] != ' ')
    requires n % 4 == 0 && n / 4 == st.indentLevel + 1
    ensures NextSpec(st) == (Emit(st.byte, Indent), Advance(st, 4).(justAfterNewline := false, indentLevel := st.indentLevel + 1))
  {
    LineStartUnfolds(st, n, t);
  }

  lemma IndentJumpAborts(st: LexState, n: nat, t: string)
    requires Coherent(st) && st.justAfterNewline && n > 0
    requires Rest(st) == Repeat(' ', n) + t && (t == [] || t[0] != ' ')
    requires n % 4 == 0 && n / 4 > st.indentLevel + 1
    ensures NextSpec(st).0 == Abort(IndentJump)
  {
    LineStartUnfolds(st, n, t);
  }

  lemma ShallowerLineDedents(st: LexState, n: nat, t: string)
    requires Coherent(st) && st.justAfterNewline && n > 0
    requires Rest(st) == Repeat(' ', n) + t && (t == [] || t[0] != ' ')
    requires n % 4 == 0 && n / 4 < st.indentLevel
    ensures NextSpec(st) == (Emit(st.byte, Dedent), Advance(st, 4).(justAfterNewline := false, indentLevel := st.indentLevel - 1))
  {
    LineStartUnfolds(st, n, t);
  }

  lemma SameIndentSkipped(st: LexState, n: nat, t: string)
    requires Coherent(st) && st.justAfterNewline && n > 0
    requires Rest(st) == Repeat(' ', n) + t && (t == [] || t[0] != ' ')
    requires n % 4 == 0 && n / 4 == st.indentLevel
    ensures NextSpec(st) == NextSpec(Advance(st, n).(justAfterNewline := false))
  {
    LineStartUnfolds(st, n, t);
    RestOfRun(st, n, t);
    SkipSpaces(Advance(st, 1).(justAfterNewline := false), n - 1);
  }

  /** After the first space of a run of `n`, `n - 1` spaces remain, and skipping them reaches the end of the run. */
  lemma RestOfRun(st: LexState, n: nat, t: string)
    requires Coherent(st) && n > 0 && Rest(st) == Repeat(' ', n) + t
    ensures var st2 := Advance(st, 1).(justAfterNewline := false);
      n - 1 <= |Rest(st2)| && (forall i :: 0 <= i < n - 1 ==> Rest(st2)[i] == ' ')
      && Advance(st2, n - 1) == Advance(st, n).(justAfterNewline := false)
  {
    var st2 := Advance(st, 1).(justAfterNewline := false);
    assert forall i :: 0 <= i < n - 1 ==> Rest(st2)[i] == Rest(st)[i + 1];
    assert Rest(st2)[n - 1..] == Rest(st)[n..];
  }

  /** A line start with `n` leading spaces: the same width continues the loop, any other is a `Layout` step. */
  lemma LineStartUnfolds(st: LexState, n: nat, t: string)
    requires Coherent(st) && st.justAfterNewline && n > 0
    requires Rest(st) == Repeat(' ', n) + t && (t == [] || t[0] != ' ')
    ensures st.byte + n <= |st.src|
    ensures n % 4 == 0 && n / 4 == st.indentLevel ==>
      NextSpec(st) == NextSpec(Advance(st, 1).(justAfterNewline := false))
    ensures !(n % 4 == 0 && n / 4 == st.indentLevel) ==>
      NextSpec(st) == Layout(st.byte, n, Advance(st, 1).(justAfterNewline := false))
  {
    SpaceRunLength(n, t);
    assert Rest(st)[0] == ' ';
    NextIsScan(st);
    ScanIsStarted(st);
    StartedSpaces(st.byte, Rest(st), Advance(st, 1).(justAfterNewline := false));
    LeadingSpacesCases(st.byte, Rest(st), Advance(st, 1).(justAfterNewline := false));
  }

  /**
   * A line indented less than the current level but not at the left margin
   * produces exactly one `Dedent`: the rest of its spaces are skipped and the
   * level is left one below where it was, whatever the line's own width.
   */
  lemma PartialDedent(st: LexState, n: nat, t: string)
    requires Coherent(st) && st.justAfterNewline
    requires Rest(st) == Repeat(' ', n) + t && (t == [] || t[0] != ' ')
    requires n % 4 == 0 && 0 < n / 4 < st.indentLevel
    ensures NextSpec(st).0 == Emit(st.byte, Dedent)
    ensures var after := NextSpec(NextSpec(st).1);
      !(after.0.Emit? && after.0.token == Dedent) && after.1.indentLevel == st.indentLevel - 1
  {
    ShallowerLineDedents(st, n, t);
    var st1 := Advance(st, 4).(justAfterNewline := false, indentLevel := st.indentLevel - 1);
    DropSpaces(st, 4, n, t);
    SpacesThenNoDedent(st1, n - 4, t);
  }

  /** Consuming `k` of a run of `n` spaces leaves the other `n - k`. */
  lemma DropSpaces(st: LexState, k: nat, n: nat, t: string)
    requires Coherent(st) && k <= n && Rest(st) == Repeat(' ', n) + t
    ensures st.byte + k <= |st.src| && Rest(Advance(st, k)) == Repeat(' ', n - k) + t
  {
    assert Rest(st)[k..] == Repeat(' ', n - k) + t;
  }

  /** Mid-line, a run of spaces and then anything but a space: the next step is no `Dedent` and keeps the level. */
  lemma SpacesThenNoDedent(st: LexState, m: nat, t: string)
    requires Coherent(st) && !st.justAfterNewline
    requires Rest(st) == Repeat(' ', m) + t && (t == [] || t[0] != ' ')
    ensures !(NextSpec(st).0.Emit? && NextSpec(st).0.token == Dedent)
    ensures NextSpec(st).1.indentLevel == st.indentLevel
  {
    SkipSpaces(st, m);
    DropSpaces(st, m, m, t);
    NoDedentMidLine(Advance(st, m));
  }

  /** Mid-line, at anything but a space, the step is no `Dedent` and keeps the level. */
  lemma NoDedentMidLine(st: LexState)
    requires Coherent(st) && !st.justAfterNewline && (Rest(st) == [] || Rest(st)[0] != ' ')
    ensures !(NextSpec(st).0.Emit? && NextSpec(st).0.token == Dedent)
    ensures NextSpec(st).1.indentLevel == st.indentLevel
  {
    if Rest(st) != [] {
      NextIsScan(st);
      if Rest(st)[0] != '\n' {
        ScanIsStarted(st);
      }
    }
  }

  /**
   * A line that starts at the left margin after an indented block: one
   * `Dedent` per open level, all at the line's first character, before the
   * line's own tokens.
   */
  lemma {:induction false} DedentsBeforeLine(st: LexState)
    requires Coherent(st) && st.justAfterNewline
    requires Rest(st) != [] && Rest(st)[0] != ' ' && Rest(st)[0] != '\n'
    ensures Run(st).0 == Repeat(Tok(st.byte, Dedent), st.indentLevel) + Run(st.(indentLevel := 0)).0
    ensures Run(st).1 == Run(st.(indentLevel := 0)).1
    decreases st.indentLevel
  {
    if st.indentLevel > 0 {
      var st1 := st.(indentLevel := st.indentLevel - 1);
      assert NextSpec(st) == (Emit(st.byte, Dedent), st1);
      DedentsBeforeLine(st1);
      assert st1.(indentLevel := 0) == st.(indentLevel := 0);
      assert Repeat(Tok(st.byte, Dedent), st.indentLevel)
        == [Tok(st.byte, Dedent)] + Repeat(Tok(st.byte, Dedent), st.indentLevel - 1);
    }
  }

  /** At the end of input the stream just stops: blocks still open get no closing `Dedent`. */
  lemma EndLeavesBlocksOpen(st: LexState)
    requires Coherent(st) && !st.justAfterNewline
    requires forall i :: 0 <= i < |Rest(st)| ==> Rest(st)[i] == ' '
    ensures Run(st) == ([], Advance(st, |Rest(st)|))
  {
    SkipSpaces(st, |Rest(st)|);
  }

  // ---------------------------------------------------------------------------
  // Operators and the keyword table
  // ---------------------------------------------------------------------------

  /** The token an operator character followed by '=' is read as. */
  function WithEquals(c: char): Token
    requires c == '-' || IsOperatorChar(c)
  {
    if c == '-' then SubEq else OperatorPair(c).1
  }

  /** An operator character directly followed by '=' is always read as the two-character operator. */
  lemma TwoCharOperators(st: LexState)
    requires Coherent(st) && !st.justAfterNewline
    requires |Rest(st)| >= 2 && (Rest(st)[0] == '-' || IsOperatorChar(Rest(st)[0])) && Rest(st)[1] == '='
    ensures NextSpec(st) == (Emit(st.byte, WithEquals(Rest(st)[0])), Advance(st, 2))
  {
    NextIsScan(st);
    ScanIsStarted(st);
    OperatorWithEquals(Rest(st)[0], st.byte, Rest(st), Advance(st, 1));
  }

  lemma OperatorWithEquals(c: char, at: nat, cRest: string, st: LexState)
    requires Coherent(st) && st.byte == at + 1 && cRest == st.src[at..] && !st.justAfterNewline
    requires |cRest| > 0 && cRest[0] == c && (c == '-' || IsOperatorChar(c))
    requires Rest(st) != [] && Rest(st)[0] == '='
    ensures Started(c, at, cRest, st) == (Emit(at, WithEquals(c)), Advance(st, 1))
  {
  }

  /** `get_keyword` recognises exactly the nine word tokens, each by its display spelling. */
  lemma KeywordTable(w: string, t: Token)
    ensures GetKeyword(w) == Some(t) <==> IsKeywordToken(t) && Display(t) == w
  {
    if IsKeywordToken(t) && Display(t) == w {
      assert GetKeyword(Display(t)) == Some(t);
    }
  }

  // ---------------------------------------------------------------------------
  // One step per kind of lexeme
  // ---------------------------------------------------------------------------

  /** The lexer is not about to emit a forced `Dedent`. */
  predicate NoPendingDedent(st: LexState)
  {
    !(st.indentLevel > 0 && st.justAfterNewline)
  }

  lemma {:induction false} RunOfWord(w: string, t: string)
    requires forall i :: 0 <= i < |w| ==> IsIdentChar(w[i])
    requires t == [] || !IsIdentChar(t[0])
    ensures RunLength(w + t, IdentChars) == |w|
    decreases |w|
  {
    if w == [] {
      assert w + t == t;
    } else {
      assert (w + t)[1..] == w[1..] + t;
      RunOfWord(w[1..], t);
    }
  }

  /** A word followed by a character that cannot continue it is read whole, as its keyword or as an identifier. */
  lemma WordStep(st: LexState, w: string, t: string)
    requires Coherent(st) && NoPendingDedent(st) && Rest(st) == w + t
    requires IsIdentifier(w) && (t == [] || !IsIdentChar(t[0]))
    ensures NextSpec(st) == (Emit(st.byte, WordToken(w)), Advance(st, |w|).(justAfterNewline := false))
  {
    WordRead(st, w, t);
    NextIsScan(st);
    ScanIsStarted(st);
    StartedIdent(st.byte, Rest(st), Advance(st, 1).(justAfterNewline := false));
  }

  lemma WordRead(st: LexState, w: string, t: string)
    requires Coherent(st) && Rest(st) == w + t
    requires IsIdentifier(w) && (t == [] || !IsIdentChar(t[0]))
    ensures Rest(st) != [] && IsAlphabetic(Rest(st)[0])
    ensures IdentLit(st.byte, Rest(st), Advance(st, 1).(justAfterNewline := false))
      == (Emit(st.byte, WordToken(w)), Advance(st, |w|).(justAfterNewline := false))
  {
    RunOfWord(w, t);
    assert Rest(st)[..|w|] == w;
  }

  /** A newline is a `Newline` token and sets the flag that makes the next line's indentation count. */
  lemma NewlineStep(st: LexState)
    requires Coherent(st) && Rest(st) != [] && Rest(st)[0] == '\n'
    ensures NextSpec(st) == (Emit(st.byte, Newline), Advance(st, 1).(justAfterNewline := true))
  {
    NextIsScan(st);
  }

  /** A punctuation character is a token on its own. */
  lemma PunctuationStep(st: LexState)
    requires Coherent(st) && NoPendingDedent(st) && Rest(st) != [] && IsPunctuation(Rest(st)[0])
    ensures NextSpec(st).0.Emit? && NextSpec(st).0.at == st.byte && Display(NextSpec(st).0.token) == [Rest(st)[0]]
    ensures NextSpec(st).1 == Advance(st, 1).(justAfterNewline := false)
  {
    NextIsScan(st);
    ScanIsStarted(st);
    StartedPunctuation(Rest(st)[0], st.byte, Rest(st), Advance(st, 1).(justAfterNewline := false));
  }

  /** A quote with no closing quote after it is an `UnterminatedString` error at the opening quote. */
  lemma UnterminatedStep(st: LexState)
    requires Coherent(st) && NoPendingDedent(st) && Rest(st) != [] && Rest(st)[0] == '"'
    requires forall i :: 1 <= i < |Rest(st)| ==> Rest(st)[i] != '"'
    ensures NextSpec(st).0 == Error(UnterminatedString(st.byte))
  {
    var st2 := Advance(st, 1).(justAfterNewline := false);
    NextIsScan(st);
    ScanIsStarted(st);
    StartedString(st.byte, Rest(st), st2);
    assert forall j :: 0 <= j < |Rest(st2)| ==> Rest(st2)[j] == Rest(st)[j + 1];
  }

  // ---------------------------------------------------------------------------
  // Unfolding one call of `next`, one layer at a time
  // ---------------------------------------------------------------------------

  /** With no forced `Dedent` pending and no space to skip, `next` reads from the current character. */
  lemma NextIsScan(st: LexState)
    requires Coherent(st) && Rest(st) != []
    requires !(st.indentLevel > 0 && st.justAfterNewline && Rest(st)[0] != ' ' && Rest(st)[0] != '\n')
    requires !(Rest(st)[0] == ' ' && !st.justAfterNewline)
    ensures NextSpec(st) == Scan(st)
  {
  }

  /** A character other than a newline is dispatched on with the flag cleared. */
  lemma ScanIsStarted(st: LexState)
    requires Coherent(st) && Rest(st) != [] && Rest(st)[0] != '\n'
    requires !(Rest(st)[0] == ' ' && !st.justAfterNewline)
    ensures Scan(st) == Started(Rest(st)[0], st.byte, Rest(st), Advance(st, 1).(justAfterNewline := false))
  {
  }

  lemma LeadingSpacesCases(at: nat, cRest: string, st: LexState)
    requires Coherent(st) && st.byte == at + 1 && cRest == st.src[at..]
    requires |cRest| > 0 && cRest[0] == ' ' && !st.justAfterNewline
    ensures var n := RunLength(cRest, SpaceChars);
      0 < n && at + n <= |st.src|
      && (n % 4 == 0 && n / 4 == st.indentLevel ==> LeadingSpaces(at, cRest, st) == NextSpec(st))
      && (!(n % 4 == 0 && n / 4 == st.indentLevel) ==> LeadingSpaces(at, cRest, st) == Layout(at, n, st))
  {
  }
}
