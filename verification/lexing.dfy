/**
 * The indentation-aware pull lexer (src/lexer.rs).
 *
 * `NextSpec` is the reference definition of one call of `Lexer::next`: from a
 * lexer state it gives the step the call returns and the state it leaves
 * behind. The class `Lexer` keeps the same four fields the source updates in
 * place and its method `Next` is proved to agree with `NextSpec`. The lemmas
 * below state what the indentation machinery, the operator lookahead, the
 * keyword table and the literal readers promise.
 *
 * Characters are ASCII: one character is one byte, so byte offsets and indices
 * into the source coincide.
 */
module Lexing {
  import opened Util
  import opened Tokens

  datatype LexErr = UnknownToken(at: nat, end: Option<nat>) | UnterminatedString(at: nat)

  /** The conditions under which the source stops the process (`assert!`, `expect`). */
  datatype LexAbort = IndentNotMultipleOfFour | IndentJump | IntLiteralUnparsable

  /** What one call of `next` produces: a spanned token, a lex error, end of input, or a process abort. */
  datatype Step = Emit(at: nat, token: Token) | Error(err: LexErr) | End | Abort(why: LexAbort)

  /**
   * The lexer's fields: the source, the byte offset of the unread rest, the
   * newline flag, the indent level. The source's `rest` field is always
   * `src[byte..]`; here it is derived from `byte` (`Rest`).
   */
  datatype LexState = LexState(src: string, byte: nat, justAfterNewline: bool, indentLevel: nat)

  predicate Coherent(st: LexState)
  {
    st.byte <= |st.src|
  }

  /** The unread rest of the source. */
  function Rest(st: LexState): string
    requires Coherent(st)
  {
    st.src[st.byte..]
  }

  /** `Lexer::new`. */
  function Start(src: string): (st: LexState)
    ensures Coherent(st) && st.src == src && st.byte == 0
    ensures !st.justAfterNewline && st.indentLevel == 0
  {
    LexState(src, 0, false, 0)
  }

  /** Consume `n` characters: `byte += n` paired with `rest = rest[n..]`. */
  function Advance(st: LexState, n: nat): (st': LexState)
    requires Coherent(st) && st.byte + n <= |st.src|
    ensures Coherent(st') && st'.src == st.src && st'.byte == st.byte + n
    ensures st'.justAfterNewline == st.justAfterNewline && st'.indentLevel == st.indentLevel
  {
    st.(byte := st.byte + n)
  }

  predicate IsSpace(c: char) { c == ' ' }

  predicate IsAlphabetic(c: char) { 'a' <= c <= 'z' || 'A' <= c <= 'Z' }

  predicate IsIdentChar(c: char) { c == '_' || IsAlphabetic(c) || IsDigit(c) }

  predicate IsNumericChar(c: char) { IsDigit(c) || c == '_' }

  /** The characters that may be followed by '=' to form a compound operator (`IfEqualElse`). */
  predicate IsOperatorChar(c: char) { c == '+' || c == '*' || c == '/' || c == '!' || c == '=' }

  /** The character classes whose maximal runs the lexer reads. */
  datatype CharClass = SpaceChars | NumericChars | IdentChars

  predicate InClass(k: CharClass, c: char)
  {
    match k
    case SpaceChars => IsSpace(c)
    case NumericChars => IsNumericChar(c)
    case IdentChars => IsIdentChar(c)
  }

  /** Length of the longest prefix of `s` in class `k` (`find(|c| !k(c)).unwrap_or(len)`). */
  function RunLength(s: string, k: CharClass): (n: nat)
    ensures n <= |s|
    ensures forall i :: 0 <= i < n ==> InClass(k, s[i])
    ensures n == |s| || !InClass(k, s[n])
  {
    if s == [] || !InClass(k, s[0]) then 0 else 1 + RunLength(s[1..], k)
  }

  /** Index of the first occurrence of `c` in `s` (`find(c)`). */
  function FindChar(s: string, c: char): (r: Option<nat>)
    ensures r.Some? ==> r.value < |s| && s[r.value] == c && forall j :: 0 <= j < r.value ==> s[j] != c
    ensures r.None? ==> forall j :: 0 <= j < |s| ==> s[j] != c
  {
    if s == [] then None
    else if s[0] == c then Some(0)
    else match FindChar(s[1..], c)
      case None => None
      case Some(k) => Some(k + 1)
  }

  /** Value of a string of decimal digits. */
  function DigitsValue(s: string): nat
  {
    if s == [] then 0
    else DigitsValue(s[..|s| - 1]) * 10 + (s[|s| - 1] as int - '0' as int) % 10
  }

  predicate AllDigits(s: string)
  {
    forall i :: 0 <= i < |s| ==> IsDigit(s[i])
  }

  /** `str::parse::<i32>` on a run of digits and underscores: in range and digits only, or nothing. */
  function ParseI32(text: string): (r: Option<i32>)
    ensures r.Some? <==> |text| > 0 && AllDigits(text) && DigitsValue(text) <= I32Max
    ensures r.Some? ==> r.value as int == DigitsValue(text)
  {
    if |text| > 0 && AllDigits(text) && DigitsValue(text) <= I32Max then Some(DigitsValue(text) as i32) else None
  }

  /** `get_keyword`: the nine reserved words. */
  function GetKeyword(ident: string): (r: Option<Token>)
    ensures r.Some? ==> IsKeywordToken(r.value)
  {
    match ident
    case "and" => Some(And)
    case "or" => Some(Or)
    case "not" => Some(Not)
    case "mut" => Some(Mut)
    case "return" => Some(Return)
    case "if" => Some(If)
    case "else" => Some(Else)
    case "def" => Some(Def)
    case "struct" => Some(Struct)
    case _ => None
  }

  /** The indent level after a step: one up after `Indent`, one down after `Dedent`, unchanged otherwise. */
  function LevelAfter(s: Step, level: nat): int
  {
    if s.Emit? && s.token == Indent then level + 1
    else if s.Emit? && s.token == Dedent then level - 1
    else level
  }

  /** One call of `Lexer::next`. */
  function NextSpec(st: LexState): (r: (Step, LexState))
    requires Coherent(st)
    ensures Coherent(r.1) && r.1.src == st.src && r.1.byte >= st.byte
    ensures r.0.End? ==> Rest(r.1) == [] && r.1.indentLevel == st.indentLevel
    ensures r.1.indentLevel == LevelAfter(r.0, st.indentLevel)
    ensures r.0.Emit? ==> r.1.byte > st.byte || (r.0.token == Dedent && r.1.byte == st.byte)
    decreases |Rest(st)|, 3
  {
    if Rest(st) == [] then (End, st)
    else if st.indentLevel > 0 && st.justAfterNewline && Rest(st)[0] != ' ' && Rest(st)[0] != '\n' then
      // forced dedent: a token without consuming input
      (Emit(st.byte, Dedent), st.(indentLevel := st.indentLevel - 1))
    else if Rest(st)[0] == ' ' && !st.justAfterNewline then
      // spaces not directly after a newline are skipped
      NextSpec(Advance(st, 1))
    else
      Scan(st)
  }

  /** The body of `next` once the current character `c` is known to start something. */
  function Scan(st: LexState): (r: (Step, LexState))
    requires Coherent(st) && Rest(st) != []
    requires !(Rest(st)[0] == ' ' && !st.justAfterNewline)
    ensures Coherent(r.1) && r.1.src == st.src && r.1.byte >= st.byte
    ensures r.0.End? ==> Rest(r.1) == [] && r.1.indentLevel == st.indentLevel
    ensures r.1.indentLevel == LevelAfter(r.0, st.indentLevel)
    ensures r.0.Emit? ==> r.1.byte > st.byte
    decreases |Rest(st)|, 2
  {
    var c := Rest(st)[0];
    var at := st.byte;
    var st1 := Advance(st, 1);
    if c == '\n' then
      (Emit(at, Newline), st1.(justAfterNewline := true))
    else
      Started(c, at, Rest(st), st1.(justAfterNewline := false))
  }

  /**
   * A run of spaces right after a newline: when its width is the indent level
   * the source goes round its loop again, otherwise the width decides the
   * layout step.
   */
  function LeadingSpaces(at: nat, cRest: string, st: LexState): (r: (Step, LexState))
    requires Coherent(st) && st.byte == at + 1 && cRest == st.src[at..]
    requires |cRest| > 0 && cRest[0] == ' ' && !st.justAfterNewline
    ensures Coherent(r.1) && r.1.src == st.src && r.1.byte >= st.byte
    ensures r.0.End? ==> Rest(r.1) == [] && r.1.indentLevel == st.indentLevel
    ensures r.1.indentLevel == LevelAfter(r.0, st.indentLevel)
    decreases |cRest|, 0
  {
    var spaces := RunLength(cRest, SpaceChars);
    if spaces % 4 == 0 && spaces / 4 == st.indentLevel then NextSpec(st)
    else Layout(at, spaces, st)
  }

  /**
   * The layout step of a line whose leading run of `spaces` differs from the
   * indent level: a width that is not a multiple of four aborts, a shallower
   * one is a `Dedent`, one level deeper an `Indent`, more than one level
   * deeper aborts. A layout token covers the first four spaces.
   */
  function Layout(at: nat, spaces: nat, st: LexState): (r: (Step, LexState))
    requires Coherent(st) && st.byte == at + 1 && 0 < spaces && at + spaces <= |st.src|
    requires !(spaces % 4 == 0 && spaces / 4 == st.indentLevel)
    ensures Coherent(r.1) && r.1.src == st.src && r.1.byte >= st.byte
    ensures r.1.justAfterNewline == st.justAfterNewline
    ensures r.1.indentLevel == LevelAfter(r.0, st.indentLevel)
    ensures r.0.Abort? || (r.0.Emit? && r.0.at == at && r.1.byte == at + 4)
    ensures r.0 == Abort(IndentNotMultipleOfFour) <==> spaces % 4 != 0
    ensures r.0 == Emit(at, Dedent) <==> spaces % 4 == 0 && spaces / 4 < st.indentLevel
    ensures r.0 == Emit(at, Indent) <==> spaces % 4 == 0 && spaces / 4 == st.indentLevel + 1
  {
    if spaces % 4 != 0 then (Abort(IndentNotMultipleOfFour), st)
    else if spaces / 4 < st.indentLevel then
      (Emit(at, Dedent), Advance(st, 3).(indentLevel := st.indentLevel - 1))
    else if spaces / 4 - st.indentLevel != 1 then (Abort(IndentJump), st)
    else (Emit(at, Indent), Advance(st, 3).(indentLevel := st.indentLevel + 1))
  }

  /**
   * The dispatch on the current character once it is known not to be a
   * newline (`let started = match c { ... }`): punctuation, operators, a run of
   * spaces after a newline, a string, a number or a word.
   */
  function Started(c: char, at: nat, cRest: string, st: LexState): (r: (Step, LexState))
    requires Coherent(st) && st.byte == at + 1 && cRest == st.src[at..]
    requires |cRest| > 0 && cRest[0] == c && c != '\n' && !st.justAfterNewline
    ensures Coherent(r.1) && r.1.src == st.src && r.1.byte >= st.byte
    ensures r.0.End? ==> Rest(r.1) == [] && r.1.indentLevel == st.indentLevel
    ensures r.1.indentLevel == LevelAfter(r.0, st.indentLevel)
    ensures c != ' ' ==> r.1.indentLevel == st.indentLevel && !r.1.justAfterNewline && !r.0.End?
    ensures c != ' ' && r.0.Emit? ==> r.0.token != Indent && r.0.token != Dedent && r.0.token != Newline
    decreases |cRest|, 1
  {
    if c == ' ' then LeadingSpaces(at, cRest, st)
    else if c == '(' then (Emit(at, LParen), st)
    else if c == ')' then (Emit(at, RParen), st)
    else if c == ':' then (Emit(at, Colon), st)
    else if c == ';' then (Emit(at, Semicolon), st)
    else if c == ',' then (Emit(at, Comma), st)
    else if c == '-' then Minus(at, st)
    else if IsOperatorChar(c) then IfEqualElse(OperatorPair(c).0, OperatorPair(c).1, at, st)
    else if c == '"' then StringLit(at, st)
    else if IsDigit(c) then Numeric(at, cRest, st)
    else if IsAlphabetic(c) then IdentLit(at, cRest, st)
    else (Error(UnknownToken(at, None)), st)
  }

  /** `-` followed by `=` is `SubEq`, followed by `>` is `Arrow`, otherwise `Sub`. */
  function Minus(at: nat, st: LexState): (r: (Step, LexState))
    requires Coherent(st)
    ensures Coherent(r.1) && r.1.src == st.src && r.1.byte >= st.byte
    ensures r.1.indentLevel == st.indentLevel && r.1.justAfterNewline == st.justAfterNewline
    ensures r.0.Emit? && r.0.at == at && r.0.token in {Sub, SubEq, Arrow}
  {
    if Rest(st) != [] && Rest(st)[0] == '=' then (Emit(at, SubEq), Advance(st, 1))
    else if Rest(st) != [] && Rest(st)[0] == '>' then (Emit(at, Arrow), Advance(st, 1))
    else (Emit(at, Sub), st)
  }

  /** A string literal: the text up to the next quote, with no escapes. */
  function StringLit(at: nat, st: LexState): (r: (Step, LexState))
    requires Coherent(st)
    ensures Coherent(r.1) && r.1.src == st.src && r.1.byte >= st.byte
    ensures r.1.indentLevel == st.indentLevel && r.1.justAfterNewline == st.justAfterNewline
    ensures (r.0.Emit? && r.0.token.StrLiteral?) || r.0 == Error(UnterminatedString(at))
  {
    match FindChar(Rest(st), '"')
    case Some(k) => (Emit(at, StrLiteral(Rest(st)[..k])), Advance(st, k + 1))
    case None => (Error(UnterminatedString(at)), st)
  }

  /** An integer literal: the run of digits and underscores, parsed as an `i32`. */
  function Numeric(at: nat, cRest: string, st: LexState): (r: (Step, LexState))
    requires Coherent(st) && st.byte == at + 1 && cRest == st.src[at..]
    requires |cRest| > 0 && IsDigit(cRest[0])
    ensures Coherent(r.1) && r.1.src == st.src && r.1.byte >= st.byte
    ensures r.1.indentLevel == st.indentLevel && r.1.justAfterNewline == st.justAfterNewline
    ensures (r.0.Emit? && r.0.token.IntLiteral?) || r.0 == Abort(IntLiteralUnparsable)
  {
    var len := RunLength(cRest, NumericChars);
    var st' := Advance(st, len - 1);
    match ParseI32(cRest[..len])
    case Some(n) => (Emit(at, IntLiteral(n)), st')
    case None => (Abort(IntLiteralUnparsable), st')
  }

  /** An identifier or keyword: the run of underscores and alphanumerics. */
  function IdentLit(at: nat, cRest: string, st: LexState): (r: (Step, LexState))
    requires Coherent(st) && st.byte == at + 1 && cRest == st.src[at..]
    requires |cRest| > 0 && IsAlphabetic(cRest[0])
    ensures Coherent(r.1) && r.1.src == st.src && r.1.byte >= st.byte
    ensures r.1.indentLevel == st.indentLevel && r.1.justAfterNewline == st.justAfterNewline
    ensures r.0.Emit? && (r.0.token.Ident? || IsKeywordToken(r.0.token))
  {
    var len := RunLength(cRest, IdentChars);
    (Emit(at, WordToken(cRest[..len])), Advance(st, len - 1))
  }

  /** A word is its keyword token if it has one, an identifier otherwise. */
  function WordToken(word: string): (t: Token)
    ensures t.Ident? || IsKeywordToken(t)
  {
    match GetKeyword(word)
    case Some(kw) => kw
    case None => Ident(word)
  }

  /** One-character lookahead: `yes` when the next character is '=' (consumed), otherwise `no`. */
  function IfEqualElse(no: Token, yes: Token, at: nat, st: LexState): (r: (Step, LexState))
    requires Coherent(st)
    requires no != Indent && no != Dedent && yes != Indent && yes != Dedent
    ensures Coherent(r.1) && r.1.src == st.src && r.1.indentLevel == st.indentLevel
    ensures r.1.justAfterNewline == st.justAfterNewline
    ensures r.0.Emit? && r.0.at == at
    ensures r.1.byte == st.byte + (if Rest(st) != [] && Rest(st)[0] == '=' then 1 else 0)
    ensures r.0.token == (if Rest(st) != [] && Rest(st)[0] == '=' then yes else no)
  {
    if Rest(st) != [] && Rest(st)[0] == '=' then (Emit(at, yes), Advance(st, 1)) else (Emit(at, no), st)
  }

  /** An identifier: an alphabetic character followed by letters, digits or underscores. */
  predicate IsIdentifier(x: string)
  {
    |x| > 0 && IsAlphabetic(x[0]) && forall i :: 0 <= i < |x| ==> IsIdentChar(x[i])
  }

  /** The source text a token was read from, given the token. */
  predicate Spells(t: Token, text: string)
  {
    match t
    case IntLiteral(n) => |text| > 0 && AllDigits(text) && DigitsValue(text) == n as int
    case StrLiteral(s) => text == ['"'] + s + ['"'] && forall i :: 0 <= i < |s| ==> s[i] != '"'
    case Ident(x) => text == x && IsIdentifier(x) && GetKeyword(x) == None
    case Indent => text == "    "
    case Dedent => text == "" || text == "    "
    case _ => text == Display(t)
  }

  // ---------------------------------------------------------------------------
  // The class the source updates in place
  // ---------------------------------------------------------------------------

  class Lexer {
    const src: string
    var rest: string
    var byte: nat
    var justAfterNewline: bool
    var indentLevel: nat

    function State(): LexState
      reads this
    {
      LexState(src, byte, justAfterNewline, indentLevel)
    }

    /** The fields agree: `rest` is the suffix of `src` at `byte`. */
    predicate Valid()
      reads this
    {
      Coherent(State()) && rest == Rest(State())
    }

    constructor (src: string)
      ensures Valid() && State() == Start(src)
    {
      this.src := src;
      rest := src;
      byte := 0;
      justAfterNewline := false;
      indentLevel := 0;
    }

    /** `Iterator::next`: one step of the state machine. */
    method Next() returns (r: Step)
      requires Valid()
      modifies this
      ensures Valid()
      ensures (r, State()) == NextSpec(old(State()))
    {
      ghost var goal := NextSpec(State());
      while true
        invariant Valid() && NextSpec(State()) == goal
        decreases |rest|
      {
        if rest == [] {
          return End;
        }
        if indentLevel > 0 && justAfterNewline && rest[0] != ' ' && rest[0] != '\n' {
          indentLevel := indentLevel - 1;
          return Emit(byte, Dedent);
        }
        var atEnd := SkipSpaces();
        if atEnd {
          return End;
        }
        ghost var s1 := State();
        assert NextSpec(s1) == Scan(s1);
        var more;
        r, more := LexScan();
        if !more {
          return;
        }
      }
    }

    /** The inner loop of `next` that skips spaces not directly after a newline. */
    method SkipSpaces() returns (atEnd: bool)
      requires Valid() && rest != []
      requires !(indentLevel > 0 && justAfterNewline && rest[0] != ' ' && rest[0] != '\n')
      modifies this
      ensures Valid() && NextSpec(State()) == NextSpec(old(State()))
      ensures justAfterNewline == old(justAfterNewline) && indentLevel == old(indentLevel)
      ensures |rest| <= old(|rest|)
      ensures atEnd <==> rest == []
      ensures !atEnd ==> !(rest[0] == ' ' && !justAfterNewline)
      ensures !atEnd ==> !(indentLevel > 0 && justAfterNewline && rest[0] != ' ' && rest[0] != '\n')
    {
      while rest[0] == ' ' && !justAfterNewline
        invariant Valid() && rest != [] && NextSpec(State()) == NextSpec(old(State()))
        invariant justAfterNewline == old(justAfterNewline) && indentLevel == old(indentLevel)
        invariant |rest| <= old(|rest|)
        invariant !(indentLevel > 0 && justAfterNewline && rest[0] != ' ' && rest[0] != '\n')
        decreases |rest|
      {
        byte := byte + 1;
        rest := rest[1..];
        if rest == [] {
          return true;
        }
      }
      return false;
    }

    /** One pass of `next` from a character that starts something; `more` is its `continue`. */
    method LexScan() returns (r: Step, more: bool)
      requires Valid() && rest != [] && !(rest[0] == ' ' && !justAfterNewline)
      modifies this
      ensures Valid()
      ensures more ==> |rest| < old(|rest|) && NextSpec(State()) == Scan(old(State()))
      ensures !more ==> (r, State()) == Scan(old(State()))
    {
      ghost var s1 := State();
      var c := rest[0];
      var cAt := byte;
      var cRest := rest;
      byte := byte + 1;
      rest := rest[1..];
      if c == '\n' {
        justAfterNewline := true;
        return Emit(cAt, Newline), false;
      }
      justAfterNewline := false;
      if c == ' ' {
        r, more := LexLeadingSpaces(cAt, cRest);
      } else {
        r := Dispatch(c, cAt, cRest);
        more := false;
      }
    }

    /**
     * The `Spaces` arm of `next`: a run of spaces right after a newline. When
     * its width equals the indent level the source goes round its loop again
     * (`more`); otherwise it returns `r`.
     */
    method LexLeadingSpaces(cAt: nat, cRest: string) returns (r: Step, more: bool)
      requires Valid() && byte == cAt + 1 && cRest == src[cAt..] && !justAfterNewline
      requires |cRest| > 0 && cRest[0] == ' '
      modifies this
      ensures Valid()
      ensures more ==> State() == old(State()) && LeadingSpaces(cAt, cRest, old(State())) == NextSpec(State())
      ensures !more ==> (r, State()) == LeadingSpaces(cAt, cRest, old(State()))
    {
      var spaces := RunLength(cRest, SpaceChars);
      if spaces % 4 == 0 && spaces / 4 == indentLevel {
        return End, true;
      }
      r := LexLayout(cAt, spaces);
      more := false;
    }

    /** The `Spaces` arm of `next` when the width differs from the indent level. */
    method LexLayout(cAt: nat, spaces: nat) returns (r: Step)
      requires Valid() && byte == cAt + 1 && 0 < spaces && cAt + spaces <= |src|
      requires !(spaces % 4 == 0 && spaces / 4 == indentLevel)
      modifies this
      ensures Valid()
      ensures (r, State()) == Layout(cAt, spaces, old(State()))
    {
      if spaces % 4 != 0 {
        return Abort(IndentNotMultipleOfFour);
      }
      var indent := spaces / 4;
      if indent < indentLevel {
        byte := byte + 3;
        rest := rest[3..];
        indentLevel := indentLevel - 1;
        return Emit(cAt, Dedent);
      }
      if indent - indentLevel != 1 {
        return Abort(IndentJump);
      }
      byte := byte + 3;
      rest := rest[3..];
      indentLevel := indentLevel + 1;
      return Emit(cAt, Indent);
    }

    /** The `Started` dispatch of `next` for a character other than a space or a newline. */
    method Dispatch(c: char, cAt: nat, cRest: string) returns (r: Step)
      requires Valid() && byte == cAt + 1 && cRest == src[cAt..] && !justAfterNewline
      requires |cRest| > 0 && cRest[0] == c && c != ' ' && c != '\n'
      modifies this
      ensures Valid()
      ensures (r, State()) == Started(c, cAt, cRest, old(State()))
    {
      if c == '(' {
        r := Emit(cAt, LParen);
      } else if c == ')' {
        r := Emit(cAt, RParen);
      } else if c == ':' {
        r := Emit(cAt, Colon);
      } else if c == ';' {
        r := Emit(cAt, Semicolon);
      } else if c == ',' {
        r := Emit(cAt, Comma);
      } else if c == '-' {
        r := LexMinus(cAt);
      } else if IsOperatorChar(c) {
        var pair := OperatorPair(c);
        r := LexIfEqualElse(pair.0, pair.1, cAt);
      } else if c == '"' {
        r := LexString(cAt);
      } else if IsDigit(c) {
        r := LexNumeric(cAt, cRest);
      } else if IsAlphabetic(c) {
        r := LexIdent(cAt, cRest);
      } else {
        r := Error(UnknownToken(cAt, None));
      }
    }

    method LexMinus(cAt: nat) returns (r: Step)
      requires Valid()
      modifies this
      ensures Valid()
      ensures (r, State()) == Minus(cAt, old(State()))
    {
      if rest != [] && rest[0] == '=' {
        byte := byte + 1;
        rest := rest[1..];
        r := Emit(cAt, SubEq);
      } else if rest != [] && rest[0] == '>' {
        byte := byte + 1;
        rest := rest[1..];
        r := Emit(cAt, Arrow);
      } else {
        r := Emit(cAt, Sub);
      }
    }

    method LexIfEqualElse(no: Token, yes: Token, cAt: nat) returns (r: Step)
      requires Valid()
      requires no != Indent && no != Dedent && yes != Indent && yes != Dedent
      modifies this
      ensures Valid()
      ensures (r, State()) == IfEqualElse(no, yes, cAt, old(State()))
    {
      if rest != [] && rest[0] == '=' {
        byte := byte + 1;
        rest := rest[1..];
        r := Emit(cAt, yes);
      } else {
        r := Emit(cAt, no);
      }
    }

    method LexString(cAt: nat) returns (r: Step)
      requires Valid()
      modifies this
      ensures Valid()
      ensures (r, State()) == StringLit(cAt, old(State()))
    {
      var end := FindChar(rest, '"');
      if end.Some? {
        var k := end.value;
        var text := rest[..k];
        byte := byte + (k + 1);
        rest := rest[k + 1..];
        r := Emit(cAt, StrLiteral(text));
      } else {
        r := Error(UnterminatedString(cAt));
      }
    }

    method LexNumeric(cAt: nat, cRest: string) returns (r: Step)
      requires Valid() && byte == cAt + 1 && cRest == src[cAt..]
      requires |cRest| > 0 && IsDigit(cRest[0])
      modifies this
      ensures Valid()
      ensures (r, State()) == Numeric(cAt, cRest, old(State()))
    {
      var len := RunLength(cRest, NumericChars);
      byte := byte + (len - 1);
      rest := rest[len - 1..];
      var n := ParseI32(cRest[..len]);
      if n.Some? {
        r := Emit(cAt, IntLiteral(n.value));
      } else {
        r := Abort(IntLiteralUnparsable);
      }
    }

    method LexIdent(cAt: nat, cRest: string) returns (r: Step)
      requires Valid() && byte == cAt + 1 && cRest == src[cAt..]
      requires |cRest| > 0 && IsAlphabetic(cRest[0])
      modifies this
      ensures Valid()
      ensures (r, State()) == IdentLit(cAt, cRest, old(State()))
    {
      var len := RunLength(cRest, IdentChars);
      var ident := cRest[..len];
      byte := byte + (len - 1);
      rest := rest[len - 1..];
      r := Emit(cAt, WordToken(ident));
    }
  }

  /** The `IfEqualElse` pairs: the one-character token and its `=`-suffixed form. */
  function OperatorPair(c: char): (Token, Token)
    requires IsOperatorChar(c)
  {
    if c == '+' then (Add, AddEq)
    else if c == '*' then (Mul, MulEq)
    else if c == '/' then (Div, DivEq)
    else if c == '!' then (Bang, BangEq)
    else (Eq, DoubleEq)
  }
}
