/**
 * The token model of the front end (src/token.rs): the closed set of lexical
 * symbols, the reduced operator classification and its precedence levels, and
 * the display spelling of each token.
 *
 * src/token.rs as shipped lacks fourteen variants that the lexer and the parser
 * use (structural tokens, punctuation and keywords); they are added here. Their
 * spelling is the text the lexer reads them from.
 */
module Tokens {
  import opened Util

  /** A signed 32-bit integer, the payload of an integer literal. */
  newtype i32 = x: int | -0x8000_0000 <= x < 0x8000_0000

  const I32Max: int := 0x7FFF_FFFF

  datatype Token =
    | IntLiteral(n: i32)
    | StrLiteral(text: string)
    | Ident(name: string)
    | LParen | RParen
    | Add | Sub | Mul | Div
    | AddEq | SubEq | MulEq | DivEq
    | Bang | BangEq
    | Eq | DoubleEq
    | Not | And | Or
    // variants the lexer and parser use that src/token.rs does not declare
    | Indent | Dedent | Newline
    | Colon | Semicolon | Comma | Arrow | Dot
    | Mut | If | Else | Return | Def | Struct

  /** The reduced classification of the infix tokens. */
  datatype Operator = OpAdd | OpSub | OpMul | OpDiv | OpEquals

  /** Precedence levels, ordered Lowest < AddSub < MulDiv < Equality. */
  datatype Precedence = Lowest | AddSub | MulDiv | Equality

  function Level(p: Precedence): nat
  {
    match p
    case Lowest => 0
    case AddSub => 1
    case MulDiv => 2
    case Equality => 3
  }

  /** The derived ordering of Precedence: `a < b`. */
  predicate Below(a: Precedence, b: Precedence)
  {
    Level(a) < Level(b)
  }

  lemma PrecedenceOrder()
    ensures Below(Lowest, AddSub) && Below(AddSub, MulDiv) && Below(MulDiv, Equality)
    ensures forall a: Precedence :: !Below(a, a)
    ensures forall a: Precedence, b: Precedence :: a != b ==> Below(a, b) || Below(b, a)
    ensures forall a: Precedence :: !Below(a, Lowest)
  {
    forall a: Precedence, b: Precedence | a != b
      ensures Below(a, b) || Below(b, a)
    {
      assert Level(a) != Level(b);
    }
  }

  /**
   * The operator classification and the precedence table live outside the
   * shipped token.rs (`as_operator`, `precedence`), and so does the rendered
   * source length of a token (`src_len`); the model takes all three as a
   * parameter.
   */
  datatype TokenTable = TokenTable(
    asOperator: Token -> Option<Operator>,
    precedence: Operator -> Precedence,
    srcLen: Token -> nat)

  /** The `Display` spelling of a token. */
  function Display(t: Token): (s: string)
    ensures FixedSpelling(t) ==> 0 < |s| <= 6
  {
    match t
    case IntLiteral(i) => IntToString(i as int)
    case StrLiteral(s) => s
    case Ident(id) => id
    case LParen => "("
    case RParen => ")"
    case Add => "+"
    case Sub => "-"
    case Mul => "*"
    case Div => "/"
    case AddEq => "+="
    case SubEq => "-="
    case MulEq => "*="
    case DivEq => "/="
    case Eq => "="
    case DoubleEq => "=="
    case Bang => "!"
    case BangEq => "!="
    case Not => "not"
    case And => "and"
    case Or => "or"
    case Indent => "    "
    case Dedent => ""
    case Newline => "\n"
    case Colon => ":"
    case Semicolon => ";"
    case Comma => ","
    case Arrow => "->"
    case Dot => "."
    case Mut => "mut"
    case If => "if"
    case Else => "else"
    case Return => "return"
    case Def => "def"
    case Struct => "struct"
  }

  /** Tokens whose spelling is fixed (no payload, not structural). */
  predicate FixedSpelling(t: Token)
  {
    !(t.IntLiteral? || t.StrLiteral? || t.Ident? || t.Indent? || t.Dedent?)
  }

  /** The token with a fixed spelling that is spelled `s`, if there is one. */
  function FromSpelling(s: string): Option<Token>
  {
    match s
    case "(" => Some(LParen)
    case ")" => Some(RParen)
    case "+" => Some(Add)
    case "-" => Some(Sub)
    case "*" => Some(Mul)
    case "/" => Some(Div)
    case "+=" => Some(AddEq)
    case "-=" => Some(SubEq)
    case "*=" => Some(MulEq)
    case "/=" => Some(DivEq)
    case "=" => Some(Eq)
    case "==" => Some(DoubleEq)
    case "!" => Some(Bang)
    case "!=" => Some(BangEq)
    case "not" => Some(Not)
    case "and" => Some(And)
    case "or" => Some(Or)
    case "\n" => Some(Newline)
    case ":" => Some(Colon)
    case ";" => Some(Semicolon)
    case "," => Some(Comma)
    case "->" => Some(Arrow)
    case "." => Some(Dot)
    case "mut" => Some(Mut)
    case "if" => Some(If)
    case "else" => Some(Else)
    case "return" => Some(Return)
    case "def" => Some(Def)
    case "struct" => Some(Struct)
    case _ => None
  }

  /** Reading a fixed spelling back gives the token it spells. */
  lemma SpellingRoundTrip(t: Token)
    requires FixedSpelling(t)
    ensures FromSpelling(Display(t)) == Some(t)
  {
  }

  /** Distinct tokens with fixed spellings are spelled differently, so an error that names a spelling names one token. */
  lemma DisplayInjective(a: Token, b: Token)
    requires FixedSpelling(a) && FixedSpelling(b) && Display(a) == Display(b)
    ensures a == b
  {
    SpellingRoundTrip(a);
    SpellingRoundTrip(b);
  }

  /** The word tokens: the keyword table of the lexer. */
  predicate IsKeywordToken(t: Token)
  {
    t.Not? || t.And? || t.Or? || t.Mut? || t.If? || t.Else? || t.Return? || t.Def? || t.Struct?
  }
}
