/**
 * The earlier array-indexed scanner of src/tokenizer.rs. It walks the
 * characters with two cursors, `l` (start of the current token) and `r`
 * (the character being looked at), and produces tokens that keep their
 * source text. Any character it does not know makes the whole run fail.
 *
 * `Scan` says what one step of the loop does at an index; `TokenizeFrom`
 * runs those steps to the end. The class `Tokenizer` is proved to follow
 * them, and the lemmas at the end state what a run promises.
 */
module CharTokenizer {
  import opened Util

  datatype TokenType =
    | Add | AddEq | Sub | SubEq | Mul | MulEq | Div | DivEq
    | Eq | NotEq | Or | And
    | Int | Identifier
    | LParen | RParen | LSquare | RSquare | LBrace | RBrace
    | Arrow | Bang | Assignment | Pipe | Bar
    | For | Return | Def | Walrus | Colon | Indent | Newline | If | In | Range

  datatype TokenizerError = InvalidChar

  /** A token with the source text it was read from. */
  datatype Token = Token(val: string, ttype: TokenType)

  // ---------------------------------------------------------------------------
  // Character classes
  // ---------------------------------------------------------------------------

  /** The characters an identifier is made of: ASCII letters and `_`. */
  predicate IsWordChar(c: char)
  {
    'a' <= c <= 'z' || 'A' <= c <= 'Z' || c == '_'
  }

  /** The characters a step of the loop can start at without failing. */
  predicate IsValidStart(c: char)
  {
    c == ' ' || c == '\n' || c == '\t' || c == '(' || c == ')' || c == '[' || c == ']' || c == '{' || c == '}'
    || c == '+' || c == '-' || c == '*' || c == '/' || c == '=' || c == ':' || c == '|' || c == '!'
    || IsDigit(c) || IsWordChar(c)
  }

  /** `get_keyword`: the eight reserved words. */
  function Keyword(w: string): (k: Option<TokenType>)
    ensures k.Some? <==> w in {"for", "def", "or", "and", "if", "in", "range", "return"}
  {
    match w
    case "for" => Some(For)
    case "def" => Some(Def)
    case "or" => Some(Or)
    case "and" => Some(And)
    case "if" => Some(If)
    case "in" => Some(In)
    case "range" => Some(Range)
    case "return" => Some(Return)
    case _ => None
  }

  /** The type `get_alpha_literal` gives a word: its keyword, or `Identifier`. */
  function WordType(w: string): TokenType
  {
    match Keyword(w)
    case Some(k) => k
    case None => Identifier
  }

  // ---------------------------------------------------------------------------
  // One step of the loop
  // ---------------------------------------------------------------------------

  /** `next_char_is` at index `i`: false at the last index. */
  predicate NextIs(src: string, i: nat, c: char)
  {
    i + 1 < |src| && src[i + 1] == c
  }

  /** Where the run of identifier characters starting at `i` ends. */
  function WordEnd(src: string, i: nat): (e: nat)
    requires i <= |src|
    ensures i <= e <= |src|
    ensures forall k :: i <= k < e ==> IsWordChar(src[k])
    ensures e == |src| || !IsWordChar(src[e])
    decreases |src| - i
  {
    if i < |src| && IsWordChar(src[i]) then WordEnd(src, i + 1) else i
  }

  /** Where the run of digits starting at `i` ends. */
  function DigitEnd(src: string, i: nat): (e: nat)
    requires i <= |src|
    ensures i <= e <= |src|
    ensures forall k :: i <= k < e ==> IsDigit(src[k])
    ensures e == |src| || !IsDigit(src[e])
    decreases |src| - i
  {
    if i < |src| && IsDigit(src[i]) then DigitEnd(src, i + 1) else i
  }

  /** The outcome of one step: a skipped space, a token and the next index, or a character that is not allowed. */
  datatype Scanned = Skipped(next: nat) | Emitted(token: Token, next: nat) | Invalid

  /** `get_char_op`: the one character at `i`. */
  function CharOp(src: string, i: nat, tt: TokenType): Scanned
    requires i < |src|
  {
    Emitted(Token([src[i]], tt), i + 1)
  }

  /** `get_long_op`: the two characters at `i`. */
  function LongOp(src: string, i: nat, tt: TokenType): Scanned
    requires i + 1 < |src|
  {
    Emitted(Token(src[i..i + 2], tt), i + 2)
  }

  /**
   * One round of the loop of `tokenize` at index `i`. A token's text is
   * always the stretch of source it covers, and it holds no space.
   */
  function Scan(src: string, i: nat): (s: Scanned)
    requires i < |src|
    ensures s.Skipped? <==> src[i] == ' '
    ensures s.Skipped? ==> s.next == i + 1
    ensures s.Invalid? <==> !IsValidStart(src[i])
    ensures s.Emitted? ==> i < s.next <= |src| && s.token.val == src[i..s.next] && ' ' !in s.token.val
    ensures s.Emitted? ==> forall k :: i < k < s.next ==> IsValidStart(src[k]) || src[k] == '>'
  {
    var c := src[i];
    match c
    case ' ' => Skipped(i + 1)
    case '\n' => CharOp(src, i, Newline)
    case '\t' => CharOp(src, i, Indent)
    case '(' => CharOp(src, i, LParen)
    case ')' => CharOp(src, i, RParen)
    case '[' => CharOp(src, i, LSquare)
    case ']' => CharOp(src, i, RSquare)
    case '{' => CharOp(src, i, RSquare)
    case '}' => CharOp(src, i, RSquare)
    case '+' => if NextIs(src, i, '=') then LongOp(src, i, AddEq) else CharOp(src, i, Add)
    case '-' =>
      if NextIs(src, i, '=') then LongOp(src, i, SubEq)
      else if NextIs(src, i, '>') then LongOp(src, i, Arrow)
      else CharOp(src, i, Sub)
    case '*' => if NextIs(src, i, '=') then LongOp(src, i, MulEq) else CharOp(src, i, Mul)
    case '/' => if NextIs(src, i, '=') then LongOp(src, i, DivEq) else CharOp(src, i, Div)
    case '=' => if NextIs(src, i, '=') then LongOp(src, i, Eq) else CharOp(src, i, Assignment)
    case ':' => if NextIs(src, i, '=') then LongOp(src, i, Walrus) else CharOp(src, i, Colon)
    case '|' => if NextIs(src, i, '>') then LongOp(src, i, Pipe) else CharOp(src, i, Bar)
    case '!' => if NextIs(src, i, '=') then LongOp(src, i, NotEq) else CharOp(src, i, Bang)
    case _ =>
      if IsDigit(c) then
        var e := DigitEnd(src, i);
        Emitted(Token(src[i..e], Int), e)
      else if IsWordChar(c) then
        var e := WordEnd(src, i);
        Emitted(Token(src[i..e], WordType(src[i..e])), e)
      else Invalid
  }

  /** The loop of `tokenize` from index `i`, with the tokens `acc` pushed so far. */
  function TokenizeFrom(src: string, i: nat, acc: seq<Token>): (r: Result<seq<Token>, TokenizerError>)
    requires i <= |src|
    ensures r.Ok? ==> |acc| <= |r.value| && r.value[..|acc|] == acc
    decreases |src| - i
  {
    if i == |src| then Ok(acc)
    else match Scan(src, i)
      case Skipped(j) => TokenizeFrom(src, j, acc)
      case Emitted(t, j) => TokenizeFrom(src, j, acc + [t])
      case Invalid => Err(InvalidChar)
  }

  /** What `Tokenizer::new(src).tokenize()` returns. */
  function Tokenize(src: string): Result<seq<Token>, TokenizerError>
  {
    TokenizeFrom(src, 0, [])
  }

  // ---------------------------------------------------------------------------
  // The scanner object
  // ---------------------------------------------------------------------------

  class Tokenizer {
    const src: string
    var l: nat
    var r: nat

    /** Between steps both cursors sit at the next character to look at. */
    predicate Valid()
      reads this
    {
      l == r <= |src|
    }

    /** `Tokenizer::new`. */
    constructor (text: string)
      ensures Valid() && src == text && r == 0
    {
      src := text;
      l := 0;
      r := 0;
    }

    /** `next_char_is`. */
    function NextCharIs(ch: char): (b: bool)
      reads this
      ensures b ==> r + 1 < |src|
      ensures b <==> NextIs(src, r, ch)
    {
      r + 1 < |src| && src[r + 1] == ch
    }

    /** `get_char_op`: one character becomes a token of type `tt`. */
    method GetCharOp(ch: char, tt: TokenType) returns (t: Token)
      requires Valid() && r < |src| && src[r] == ch
      modifies this
      ensures Valid() && r == old(r) + 1
      ensures CharOp(src, old(r), tt) == Emitted(t, r)
    {
      r := r + 1;
      l := r;
      t := Token([ch], tt);
    }

    /** `get_long_op`: two characters become a token of type `tt`. */
    method GetLongOp(tt: TokenType) returns (t: Token)
      requires Valid() && r + 1 < |src|
      modifies this
      ensures Valid() && r == old(r) + 2
      ensures LongOp(src, old(r), tt) == Emitted(t, r)
    {
      var literal := src[r..r + 2];
      r := r + 1;
      r := r + 1;
      l := r;
      t := Token(literal, tt);
    }

    /** `get_alpha_literal`: the longest run of identifier characters, as a keyword or an identifier. */
    method GetAlphaLiteral() returns (t: Token)
      requires Valid()
      modifies this
      ensures Valid() && r == WordEnd(src, old(r))
      ensures t == Token(src[old(r)..r], WordType(src[old(r)..r]))
    {
      while r < |src| && IsWordChar(src[r])
        invariant l <= r <= |src| && l == old(r)
        invariant WordEnd(src, r) == WordEnd(src, l)
        decreases |src| - r
      {
        r := r + 1;
      }
      var literal := src[l..r];
      l := r;
      t := Token(literal, WordType(literal));
    }

    /** `get_numerical_literal`: the longest run of digits. */
    method GetNumericalLiteral() returns (t: Token)
      requires Valid()
      modifies this
      ensures Valid() && r == DigitEnd(src, old(r))
      ensures t == Token(src[old(r)..r], Int)
    {
      while r < |src| && IsDigit(src[r])
        invariant l <= r <= |src| && l == old(r)
        invariant DigitEnd(src, r) == DigitEnd(src, l)
        decreases |src| - r
      {
        r := r + 1;
      }
      var literal := src[l..r];
      l := r;
      t := Token(literal, Int);
    }

    /** `tokenize`: scan from the cursor to the end; the first unknown character fails the whole run. */
    method Tokenize() returns (res: Result<seq<Token>, TokenizerError>)
      requires Valid()
      modifies this
      ensures Valid()
      ensures res == TokenizeFrom(src, old(r), [])
      ensures res.Ok? ==> r == |src|
    {
      var tokens := [];
      while r < |src|
        invariant Valid() && old(r) <= r
        invariant TokenizeFrom(src, r, tokens) == TokenizeFrom(src, old(r), [])
        decreases |src| - r
      {
        var step := Step();
        match step
        case Skipped(_) =>
        case Emitted(t, _) => tokens := tokens + [t];
        case Invalid => return Err(InvalidChar);
      }
      return Ok(tokens);
    }

    /** The body of the loop of `tokenize`: the character under `r` decides. */
    method Step() returns (s: Scanned)
      requires Valid() && r < |src|
      modifies this
      ensures Valid() && s == Scan(src, old(r))
      ensures !s.Invalid? ==> r == s.next
    {
      var token;
      var ch := src[r];
      match ch {
      case ' ' =>
        r := r + 1;
        l := r;
        return Skipped(r);
      case '\n' => token := GetCharOp(ch, Newline);
      case '\t' => token := GetCharOp(ch, Indent);
      case '(' => token := GetCharOp(ch, LParen);
      case ')' => token := GetCharOp(ch, RParen);
      case '[' => token := GetCharOp(ch, LSquare);
      case ']' => token := GetCharOp(ch, RSquare);
      case '{' => token := GetCharOp(ch, RSquare);
      case '}' => token := GetCharOp(ch, RSquare);
      case '+' =>
        if NextCharIs('=') {
          token := GetLongOp(AddEq);
        } else {
          token := GetCharOp(ch, Add);
        }
      case '-' =>
        if NextCharIs('=') {
          token := GetLongOp(SubEq);
        } else if NextCharIs('>') {
          token := GetLongOp(Arrow);
        } else {
          token := GetCharOp(ch, Sub);
        }
      case '*' =>
        if NextCharIs('=') {
          token := GetLongOp(MulEq);
        } else {
          token := GetCharOp(ch, Mul);
        }
      case '/' =>
        if NextCharIs('=') {
          token := GetLongOp(DivEq);
        } else {
          token := GetCharOp(ch, Div);
        }
      case '=' =>
        if NextCharIs('=') {
          token := GetLongOp(Eq);
        } else {
          token := GetCharOp(ch, Assignment);
        }
      case ':' =>
        if NextCharIs('=') {
          token := GetLongOp(Walrus);
        } else {
          token := GetCharOp(ch, Colon);
        }
      case '|' =>
        if NextCharIs('>') {
          token := GetLongOp(Pipe);
        } else {
          token := GetCharOp(ch, Bar);
        }
      case '!' =>
        if NextCharIs('=') {
          token := GetLongOp(NotEq);
        } else {
          token := GetCharOp(ch, Bang);
        }
      case _ =>
        if IsDigit(ch) {
          token := GetNumericalLiteral();
        } else if IsWordChar(ch) {
          token := GetAlphaLiteral();
        } else {
          return Invalid;
        }
      }
      s := Emitted(token, r);
    }
  }

  // ---------------------------------------------------------------------------
  // What a run promises
  // ---------------------------------------------------------------------------

  /** The texts of the tokens, one after the other. */
  function Spelling(ts: seq<Token>): string
  {
    if ts == [] then [] else Spelling(ts[..|ts| - 1]) + ts[|ts| - 1].val
  }

  /** `s` with its spaces taken out. */
  function Unspaced(s: string): (u: string)
    ensures ' ' !in u
  {
    if s == [] then [] else (if s[0] == ' ' then [] else [s[0]]) + Unspaced(s[1..])
  }

  lemma {:induction false} UnspacedAppend(a: string, b: string)
    ensures Unspaced(a + b) == Unspaced(a) + Unspaced(b)
  {
    if a == [] {
      assert a + b == b;
    } else {
      assert (a + b)[1..] == a[1..] + b;
      UnspacedAppend(a[1..], b);
    }
  }

  lemma {:induction false} UnspacedNoSpace(s: string)
    requires ' ' !in s
    ensures Unspaced(s) == s
  {
    if s != [] {
      assert ' ' !in s[1..];
      UnspacedNoSpace(s[1..]);
    }
  }

  /**
   * Nothing is lost: when a run succeeds, the token texts put together give
   * back the source from `i` on without its spaces.
   */
  lemma {:induction false} TokenizeKeepsText(src: string, i: nat, acc: seq<Token>)
    requires i <= |src|
    ensures var r := TokenizeFrom(src, i, acc);
      r.Ok? ==> Spelling(r.value) == Spelling(acc) + Unspaced(src[i..])
    decreases |src| - i
  {
    if i < |src| {
      match Scan(src, i)
      case Skipped(j) =>
        assert src[i..] == [' '] + src[j..];
        UnspacedAppend([' '], src[j..]);
        TokenizeKeepsText(src, j, acc);
      case Emitted(t, j) =>
        assert src[i..] == t.val + src[j..];
        UnspacedAppend(t.val, src[j..]);
        UnspacedNoSpace(t.val);
        assert (acc + [t])[..|acc|] == acc;
        TokenizeKeepsText(src, j, acc + [t]);
      case Invalid =>
    }
  }

  /** `Tokenizer::new(src).tokenize()` keeps every character but the spaces. */
  lemma TokenizeSpelling(src: string)
    ensures Tokenize(src).Ok? ==> Spelling(Tokenize(src).value) == Unspaced(src)
  {
    TokenizeKeepsText(src, 0, []);
  }

  /** A source made only of characters the loop knows never fails. */
  lemma {:induction false} KnownCharsTokenize(src: string, i: nat, acc: seq<Token>)
    requires i <= |src|
    requires forall k :: i <= k < |src| ==> IsValidStart(src[k])
    ensures TokenizeFrom(src, i, acc).Ok?
    decreases |src| - i
  {
    if i < |src| {
      match Scan(src, i)
      case Skipped(j) => KnownCharsTokenize(src, j, acc);
      case Emitted(t, j) => KnownCharsTokenize(src, j, acc + [t]);
    }
  }

  /**
   * A run that succeeds met no unknown character: each one is known, or is
   * the `>` of `->` or `|>`.
   */
  lemma {:induction false} TokenizeOkMeansKnown(src: string, i: nat, acc: seq<Token>)
    requires i <= |src|
    requires TokenizeFrom(src, i, acc).Ok?
    ensures forall k :: i <= k < |src| ==> IsValidStart(src[k]) || src[k] == '>'
    decreases |src| - i
  {
    if i < |src| {
      match Scan(src, i)
      case Skipped(j) => TokenizeOkMeansKnown(src, j, acc);
      case Emitted(t, j) => TokenizeOkMeansKnown(src, j, acc + [t]);
    }
  }

  /** The single-character tokens, as the source assigns them. */
  function SingleType(c: char): Option<TokenType>
  {
    match c
    case '\n' => Some(Newline)
    case '\t' => Some(Indent)
    case '(' => Some(LParen)
    case ')' => Some(RParen)
    case '[' => Some(LSquare)
    case ']' => Some(RSquare)
    case '{' => Some(RSquare)
    case '}' => Some(RSquare)
    case '+' => Some(Add)
    case '-' => Some(Sub)
    case '*' => Some(Mul)
    case '/' => Some(Div)
    case '=' => Some(Assignment)
    case ':' => Some(Colon)
    case '|' => Some(Bar)
    case '!' => Some(Bang)
    case _ => None
  }

  /** The two-character operators: the type of `c` followed by `d`, if they form one. */
  function PairType(c: char, d: char): Option<TokenType>
  {
    if c == '+' && d == '=' then Some(AddEq)
    else if c == '-' && d == '=' then Some(SubEq)
    else if c == '-' && d == '>' then Some(Arrow)
    else if c == '*' && d == '=' then Some(MulEq)
    else if c == '/' && d == '=' then Some(DivEq)
    else if c == '=' && d == '=' then Some(Eq)
    else if c == ':' && d == '=' then Some(Walrus)
    else if c == '|' && d == '>' then Some(Pipe)
    else if c == '!' && d == '=' then Some(NotEq)
    else None
  }

  /**
   * At an operator or punctuation character the loop reads a two-character
   * operator when the next character completes one, and the one character
   * otherwise.
   */
  lemma OperatorScan(src: string, i: nat)
    requires i < |src| && SingleType(src[i]).Some?
    ensures i + 1 < |src| && PairType(src[i], src[i + 1]).Some? ==>
      Scan(src, i) == Emitted(Token(src[i..i + 2], PairType(src[i], src[i + 1]).value), i + 2)
    ensures !(i + 1 < |src| && PairType(src[i], src[i + 1]).Some?) ==>
      Scan(src, i) == Emitted(Token([src[i]], SingleType(src[i]).value), i + 1)
  {
  }

  /** A word is a keyword exactly when it is one of the eight reserved words. */
  lemma WordTypeKeyword(w: string)
    ensures WordType(w) != Identifier <==> w in {"for", "def", "or", "and", "if", "in", "range", "return"}
  {
  }

  /**
   * At a letter or `_` the loop reads the longest run of letters and `_`
   * (a digit ends it) as one token, typed by `WordType`.
   */
  lemma WordScan(src: string, i: nat)
    requires i < |src| && IsWordChar(src[i])
    ensures var e := WordEnd(src, i);
      Scan(src, i) == Emitted(Token(src[i..e], WordType(src[i..e])), e)
      && i < e && forall k :: i <= k < e ==> !IsDigit(src[k])
  {
  }

  /** At a digit the loop reads the longest run of digits as an `Int` token. */
  lemma NumberScan(src: string, i: nat)
    requires i < |src| && IsDigit(src[i])
    ensures Scan(src, i) == Emitted(Token(src[i..DigitEnd(src, i)], Int), DigitEnd(src, i))
  {
  }

  // ---------------------------------------------------------------------------
  // Braces
  // ---------------------------------------------------------------------------

  /**
   * As written, `{` and `}` are both read as a closing square bracket: the
   * one-character tokens of `{` and of `]` have the same type, and
   * `LBrace`/`RBrace` are never produced.
   */
  lemma BracesReadAsSquare()
    ensures Scan("{", 0) == Emitted(Token("{", RSquare), 1)
    ensures Scan("}", 0) == Emitted(Token("}", RSquare), 1)
    ensures Scan("]", 0) == Emitted(Token("]", RSquare), 1)
  {
    assert "{"[0..1] == "{" && "}"[0..1] == "}" && "]"[0..1] == "]";
  }

  /** No round of the loop as written yields a brace token. */
  lemma ScanNoBrace(src: string, i: nat)
    requires i < |src|
    ensures Scan(src, i).Emitted? ==> Scan(src, i).token.ttype != LBrace && Scan(src, i).token.ttype != RBrace
  {
  }

  /** No run of the loop as written yields a brace token. */
  lemma {:induction false} NoBraceTokens(src: string, i: nat, acc: seq<Token>)
    requires i <= |src|
    requires forall k :: 0 <= k < |acc| ==> acc[k].ttype != LBrace && acc[k].ttype != RBrace
    ensures var r := TokenizeFrom(src, i, acc);
      r.Ok? ==> forall k :: 0 <= k < |r.value| ==> r.value[k].ttype != LBrace && r.value[k].ttype != RBrace
    decreases |src| - i
  {
    if i < |src| {
      match Scan(src, i)
      case Skipped(j) => NoBraceTokens(src, j, acc);
      case Emitted(t, j) =>
        ScanNoBrace(src, i);
        NoBraceTokens(src, j, acc + [t]);
      case Invalid =>
    }
  }

  /** The one-character token types with the braces given their own. */
  function FixedSingleType(c: char): Option<TokenType>
  {
    if c == '{' then Some(LBrace)
    else if c == '}' then Some(RBrace)
    else SingleType(c)
  }

  /** A round of the loop with the braces given their own token types. */
  function FixedScan(src: string, i: nat): (s: Scanned)
    requires i < |src|
    ensures s.Emitted? ==> i < s.next <= |src| && s.token.val == src[i..s.next]
  {
    if src[i] == '{' then CharOp(src, i, LBrace)
    else if src[i] == '}' then CharOp(src, i, RBrace)
    else Scan(src, i)
  }

  /** Distinct punctuation characters get distinct token types. */
  lemma FixedSingleTypeInjective(c: char, d: char)
    requires FixedSingleType(c).Some? && FixedSingleType(c) == FixedSingleType(d)
    ensures c == d
  {
  }

  /**
   * With the braces fixed, the type of a one-character operator or
   * punctuation token names the character it was read from.
   */
  lemma FixedScanSingle(src: string, i: nat)
    requires i < |src|
    requires FixedScan(src, i).Emitted? && FixedScan(src, i).next == i + 1
    requires FixedScan(src, i).token.ttype != Identifier && FixedScan(src, i).token.ttype != Int
    ensures FixedSingleType(src[i]) == Some(FixedScan(src, i).token.ttype)
  {
  }

  /** So two such tokens of the same type come from the same character. */
  lemma FixedScanTypesDistinct(src: string, i: nat, other: string, j: nat)
    requires i < |src| && j < |other|
    requires FixedScan(src, i).Emitted? && FixedScan(src, i).next == i + 1
    requires FixedScan(other, j).Emitted? && FixedScan(other, j).next == j + 1
    requires FixedScan(src, i).token.ttype != Identifier && FixedScan(src, i).token.ttype != Int
    requires FixedScan(src, i).token.ttype == FixedScan(other, j).token.ttype
    ensures src[i] == other[j]
  {
    FixedScanSingle(src, i);
    FixedScanSingle(other, j);
    FixedSingleTypeInjective(src[i], other[j]);
  }
}
