/**
 * The `Tokenizer` class of experimental/pipe.py, a small scanner for a
 * pipe-expression prototype. It recognises `|>`, `+`, `*`, parentheses,
 * `=`, `==` and runs of ASCII letters, passes over everything else, and
 * always ends its output with one end-of-file token.
 *
 * `Step` says what one round of its loop does; `TokenizeFrom` runs the loop.
 * The class is proved to follow them. The scanner as written repeats part
 * of `==` and drops the character after every identifier; `FixedStep` is
 * the scanner without those two slips, and `FixedAccounts` shows that it
 * accounts for every operator character of its input.
 */
module PipeTokenizer {
  import opened Util

  /** The token kinds (`T`). */
  datatype Kind = Pipe | Ident | Add | Mul | LParen | RParen | Assign | Eq | Eof

  /** A token (`TT`): a kind and, for identifiers, the text. */
  datatype TT = TT(kind: Kind, literal: Option<string>)

  /** `is_alpha`: an ASCII letter. */
  predicate IsAlpha(c: char)
    ensures IsAlpha(c) ==> c !in {'+', '*', '(', ')', '=', ' '}
  {
    'A' <= c <= 'Z' || 'a' <= c <= 'z'
  }

  /** `next_char_is` at index `i`: false at the last index. */
  predicate NextIs(src: string, i: nat, c: char)
  {
    i + 1 < |src| && src[i + 1] == c
  }

  /** Where the run of letters starting at `i` ends. */
  function AlphaEnd(src: string, i: nat): (e: nat)
    requires i <= |src|
    ensures i <= e <= |src|
    ensures forall k :: i <= k < e ==> IsAlpha(src[k])
    ensures e == |src| || !IsAlpha(src[e])
    decreases |src| - i
  {
    if i < |src| && IsAlpha(src[i]) then AlphaEnd(src, i + 1) else i
  }

  /** A token without text. */
  function Bare(k: Kind): TT
  {
    TT(k, None)
  }

  /**
   * One round of the loop of `tokenize` at index `i`: the tokens appended
   * and the index the round ends at, after its closing `r += 1`.
   */
  function Step(src: string, i: nat): (s: (seq<TT>, nat))
    requires i < |src|
    ensures i < s.1 <= |src| + 1
  {
    match src[i]
    case '|' => (if NextIs(src, i, '>') then [Bare(Pipe)] else [], i + 1)
    case '+' => ([Bare(Add)], i + 1)
    case '*' => ([Bare(Mul)], i + 1)
    case '(' => ([Bare(LParen)], i + 1)
    case ')' => ([Bare(RParen)], i + 1)
    case '=' => ((if NextIs(src, i, '=') then [Bare(Eq)] else []) + [Bare(Assign)], i + 1)
    case c =>
      if IsAlpha(c) then
        var e := AlphaEnd(src, i);
        ([TT(Ident, Some(src[i..e]))], e + 1)
      else ([], i + 1)
  }

  /** The loop of `tokenize` from index `i` with the tokens `acc` so far, and the final end-of-file token. */
  function TokenizeFrom(src: string, i: nat, acc: seq<TT>): (ts: seq<TT>)
    ensures |ts| > |acc| && ts[..|acc|] == acc && ts[|ts| - 1] == Bare(Eof)
    decreases |src| + 1 - i
  {
    if i >= |src| then acc + [Bare(Eof)]
    else
      var (more, j) := Step(src, i);
      TokenizeFrom(src, j, acc + more)
  }

  /** What `Tokenizer(src).tokenize()` returns. */
  function Tokenize(src: string): seq<TT>
  {
    TokenizeFrom(src, 0, [])
  }

  class Tokenizer {
    const src: string
    var l: nat
    var r: nat

    /** Between rounds both cursors sit at the next character to look at. */
    predicate Valid()
      reads this
    {
      l == r
    }

    /** `Tokenizer(src)`. */
    constructor (text: string)
      ensures Valid() && src == text && r == 0
    {
      src := text;
      l := 0;
      r := 0;
    }

    /** `next_char_is`. */
    function NextCharIs(ch: char): (b: bool)
      reads this
      ensures b ==> r + 1 < |src|
      ensures b <==> NextIs(src, r, ch)
    {
      r + 1 < |src| && src[r + 1] == ch
    }

    /** `tokenize`: scan from the cursor to the end and append the end-of-file token. */
    method Tokenize() returns (tokens: seq<TT>)
      requires Valid()
      modifies this
      ensures Valid() && r >= |src|
      ensures tokens == TokenizeFrom(src, old(r), [])
    {
      tokens := [];
      while r < |src|
        invariant Valid()
        invariant TokenizeFrom(src, r, tokens) == TokenizeFrom(src, old(r), [])
        decreases |src| + 1 - r
      {
        tokens := Round(tokens);
      }
      tokens := tokens + [Bare(Eof)];
    }

    /** One round of the loop of `tokenize`, appending to `tokens`. */
    method Round(tokens: seq<TT>) returns (appended: seq<TT>)
      requires Valid() && r < |src|
      modifies this
      ensures Valid()
      ensures appended == tokens + Step(src, old(r)).0 && r == Step(src, old(r)).1
    {
      appended := tokens;
      match src[r] {
        case '|' =>
          if NextCharIs('>') {
            appended := appended + [Bare(Pipe)];
          }
        case '+' => appended := appended + [Bare(Add)];
        case '*' => appended := appended + [Bare(Mul)];
        case '(' => appended := appended + [Bare(LParen)];
        case ')' => appended := appended + [Bare(RParen)];
        case '=' =>
          if NextCharIs('=') {
            appended := appended + [Bare(Eq)];
          }
          appended := appended + [Bare(Assign)];
          assert appended == tokens + Step(src, old(r)).0;
        case c =>
          if IsAlpha(c) {
            while r < |src| && IsAlpha(src[r])
              invariant l == old(r) <= r <= |src|
              invariant AlphaEnd(src, r) == AlphaEnd(src, l)
              decreases |src| - r
            {
              r := r + 1;
            }
            var literal := src[l..r];
            l := r;
            appended := appended + [TT(Ident, Some(literal))];
          }
      }
      r := r + 1;
      l := r;
    }
  }

  // ---------------------------------------------------------------------------
  // What a run promises
  // ---------------------------------------------------------------------------

  /** Tokens as the scanner leaves them: no end-of-file, and identifiers carry a non-empty run of letters. */
  predicate WellFormed(ts: seq<TT>)
  {
    forall k :: 0 <= k < |ts| ==>
      ts[k].kind != Eof
      && (ts[k].kind == Ident <==> ts[k].literal.Some?)
      && (ts[k].kind == Ident ==>
            |ts[k].literal.value| > 0
            && forall m :: 0 <= m < |ts[k].literal.value| ==> IsAlpha(ts[k].literal.value[m]))
  }

  lemma StepWellFormed(src: string, i: nat)
    requires i < |src|
    ensures WellFormed(Step(src, i).0)
  {
  }

  /**
   * Every run ends with exactly one end-of-file token, and every identifier
   * before it is a non-empty run of ASCII letters.
   */
  lemma {:induction false} TokenizeWellFormed(src: string, i: nat, acc: seq<TT>)
    requires WellFormed(acc)
    ensures var ts := TokenizeFrom(src, i, acc);
      ts[|ts| - 1] == Bare(Eof) && WellFormed(ts[..|ts| - 1])
    decreases |src| + 1 - i
  {
    var ts := TokenizeFrom(src, i, acc);
    if i >= |src| {
      assert ts[..|ts| - 1] == acc;
    } else {
      var (more, j) := Step(src, i);
      StepWellFormed(src, i);
      assert WellFormed(acc + more);
      TokenizeWellFormed(src, j, acc + more);
    }
  }

  /** `Tokenizer(src).tokenize()` ends with its only end-of-file token. */
  lemma TokenizeEndsWithEof(src: string)
    ensures var ts := Tokenize(src); ts[|ts| - 1] == Bare(Eof) && WellFormed(ts[..|ts| - 1])
  {
    TokenizeWellFormed(src, 0, []);
  }

  // ---------------------------------------------------------------------------
  // The two slips, and the scanner without them
  // ---------------------------------------------------------------------------

  /** The text a token stands for. */
  function Spelled(t: TT): string
  {
    match t.kind
    case Pipe => "|>"
    case Ident => if t.literal.Some? then t.literal.value else ""
    case Add => "+"
    case Mul => "*"
    case LParen => "("
    case RParen => ")"
    case Assign => "="
    case Eq => "=="
    case Eof => ""
  }

  /** The texts of the tokens, one after the other. */
  function Spelling(ts: seq<TT>): string
  {
    if ts == [] then [] else Spelling(ts[..|ts| - 1]) + Spelled(ts[|ts| - 1])
  }

  lemma {:induction false} SpellingAppend(a: seq<TT>, b: seq<TT>)
    ensures Spelling(a + b) == Spelling(a) + Spelling(b)
    decreases |b|
  {
    if b == [] {
      assert a + b == a;
    } else {
      var front, last := b[..|b| - 1], b[|b| - 1];
      assert (a + b)[..|a + b| - 1] == a + front && (a + b)[|a + b| - 1] == last;
      SpellingAppend(a, front);
      calc {
        Spelling(a + b);
        Spelling(a + front) + Spelled(last);
        Spelling(a) + Spelling(front) + Spelled(last);
        Spelling(a) + (Spelling(front) + Spelled(last));
        { assert Spelling(b) == Spelling(front) + Spelled(last); }
        Spelling(a) + Spelling(b);
      }
    }
  }

  /** The characters every token kind accounts for: the operators it reads and letters. */
  predicate Accounted(c: char)
  {
    c == '+' || c == '*' || c == '(' || c == ')' || c == '=' || IsAlpha(c)
  }

  /**
   * As written, `==` is read twice: the round at the first `=` emits an
   * equality and an assignment, and the round at the second `=` emits
   * another assignment. The spelled tokens hold four `=` for two in the
   * source.
   */
  lemma EqualsReadTwice()
    ensures Tokenize("==") == [Bare(Eq), Bare(Assign), Bare(Assign), Bare(Eof)]
    ensures Count(Spelling(Tokenize("==")), '=') == 4 && Count("==", '=') == 2
  {
    EqualsRounds();
    var ts := [Bare(Eq), Bare(Assign), Bare(Assign), Bare(Eof)];
    assert TokenizeFrom("==", 0, []) == TokenizeFrom("==", 1, [Bare(Eq), Bare(Assign)]);
    assert [Bare(Eq), Bare(Assign)] + [Bare(Assign)] == ts[..3];
    assert TokenizeFrom("==", 1, [Bare(Eq), Bare(Assign)]) == TokenizeFrom("==", 2, ts[..3]);
    assert ts[..3] + [Bare(Eof)] == ts;
    EqualsSpelling();
  }

  /** The two rounds over `==`. */
  lemma EqualsRounds()
    ensures Step("==", 0) == ([Bare(Eq), Bare(Assign)], 1)
    ensures Step("==", 1) == ([Bare(Assign)], 2)
  {
    var s := "==";
    assert s[0] == '=' && s[1] == '=' && NextIs(s, 0, '=') && !NextIs(s, 1, '=');
    assert [Bare(Eq)] + [Bare(Assign)] == [Bare(Eq), Bare(Assign)];
    assert [] + [Bare(Assign)] == [Bare(Assign)];
  }

  lemma EqualsSpelling()
    ensures Count(Spelling([Bare(Eq), Bare(Assign), Bare(Assign), Bare(Eof)]), '=') == 4 && Count("==", '=') == 2
  {
    var ts := [Bare(Eq), Bare(Assign), Bare(Assign), Bare(Eof)];
    assert Spelling(ts[..1]) == "==" by { assert ts[..1][..0] == []; }
    assert Spelling(ts[..2]) == "===" by { assert ts[..2][..1] == ts[..1]; }
    assert Spelling(ts[..3]) == "====" by { assert ts[..3][..2] == ts[..2]; }
    assert Spelling(ts) == "====" by { assert ts[..3] == ts[..4][..3]; }
    var e := "====";
    assert e[1..] == "===" && e[1..][1..] == "==" && e[1..][1..][1..] == "=";
  }

  /**
   * As written, the character right after an identifier is skipped: in
   * `a+b` the `+` is never looked at.
   */
  lemma IdentSkipsNext()
    ensures Tokenize("a+b") == [TT(Ident, Some("a")), TT(Ident, Some("b")), Bare(Eof)]
    ensures Count(Spelling(Tokenize("a+b")), '+') == 0 && Count("a+b", '+') == 1
  {
    IdentRounds();
    var ts := [TT(Ident, Some("a")), TT(Ident, Some("b")), Bare(Eof)];
    assert TokenizeFrom("a+b", 0, []) == TokenizeFrom("a+b", 2, ts[..1]);
    assert ts[..1] + [TT(Ident, Some("b"))] == ts[..2];
    assert TokenizeFrom("a+b", 2, ts[..1]) == TokenizeFrom("a+b", 4, ts[..2]);
    assert ts[..2] + [Bare(Eof)] == ts;
    IdentSpelling();
  }

  /** The two rounds over `a+b`: each letter is an identifier and the round after `a` ends past the `+`. */
  lemma IdentRounds()
    ensures Step("a+b", 0) == ([TT(Ident, Some("a"))], 2)
    ensures Step("a+b", 2) == ([TT(Ident, Some("b"))], 4)
  {
    var s := "a+b";
    assert s[0] == 'a' && s[1] == '+' && s[2] == 'b';
    assert AlphaEnd(s, 1) == 1;
    assert AlphaEnd(s, 0) == 1;
    assert s[0..1] == "a" && s[2..3] == "b";
    assert AlphaEnd(s, 3) == 3;
    assert AlphaEnd(s, 2) == 3;
  }

  lemma IdentSpelling()
    ensures Count(Spelling([TT(Ident, Some("a")), TT(Ident, Some("b")), Bare(Eof)]), '+') == 0 && Count("a+b", '+') == 1
  {
    var ts := [TT(Ident, Some("a")), TT(Ident, Some("b")), Bare(Eof)];
    assert Spelling(ts[..1]) == "a" by { assert ts[..1][..0] == []; }
    assert ts[..2][..1] == ts[..1] && ts[..2] == ts[..3][..2];
    assert Spelling(ts) == "ab";
  }

  /**
   * One round of the loop without the two slips: `==` is one token that
   * consumes both characters, and the character after an identifier is left
   * for the next round.
   */
  function FixedStep(src: string, i: nat): (s: (seq<TT>, nat))
    requires i < |src|
    ensures i < s.1 <= |src|
  {
    match src[i]
    case '|' => (if NextIs(src, i, '>') then [Bare(Pipe)] else [], i + 1)
    case '+' => ([Bare(Add)], i + 1)
    case '*' => ([Bare(Mul)], i + 1)
    case '(' => ([Bare(LParen)], i + 1)
    case ')' => ([Bare(RParen)], i + 1)
    case '=' => if NextIs(src, i, '=') then ([Bare(Eq)], i + 2) else ([Bare(Assign)], i + 1)
    case c =>
      if IsAlpha(c) then
        var e := AlphaEnd(src, i);
        ([TT(Ident, Some(src[i..e]))], e)
      else ([], i + 1)
  }

  /** The loop with `FixedStep` for its rounds. */
  function FixedTokenizeFrom(src: string, i: nat, acc: seq<TT>): (ts: seq<TT>)
    requires i <= |src|
    ensures |ts| > |acc| && ts[|ts| - 1] == Bare(Eof)
    decreases |src| - i
  {
    if i == |src| then acc + [Bare(Eof)]
    else
      var (more, j) := FixedStep(src, i);
      FixedTokenizeFrom(src, j, acc + more)
  }

  function FixedTokenize(src: string): seq<TT>
  {
    FixedTokenizeFrom(src, 0, [])
  }

  lemma CountOne(x: char, c: char)
    ensures Count([x], c) == if x == c then 1 else 0
  {
    assert [x][1..] == [];
  }

  /** A round without the slips spells exactly the accounted characters it consumes. */
  lemma FixedStepAccounts(src: string, i: nat, c: char)
    requires i < |src| && Accounted(c)
    ensures var (more, j) := FixedStep(src, i); Count(Spelling(more), c) == Count(src[i..j], c)
  {
    var (more, j) := FixedStep(src, i);
    var x := src[i];
    if IsAlpha(x) {
      assert more == [TT(Ident, Some(src[i..j]))];
      assert more[..0] == [];
      assert Spelling(more) == [] + src[i..j] == src[i..j];
    } else if x == '=' && NextIs(src, i, '=') {
      assert src[i..j] == "==";
      assert Spelling(more) == [] + "==";
    } else if x in "+*()=" {
      assert src[i..j] == [x];
      assert Spelling(more) == [] + [x];
    } else {
      assert src[i..j] == [x];
      CountOne(x, c);
      if more != [] {
        assert Spelling(more) == [] + "|>";
      }
    }
  }

  /**
   * The scanner without the slips loses no accounted character: every
   * operator it reads and every letter appears in the spelled tokens
   * exactly as often as in the source.
   */
  lemma {:induction false} FixedAccountsFrom(src: string, i: nat, acc: seq<TT>, c: char)
    requires i <= |src| && Accounted(c)
    ensures Count(Spelling(FixedTokenizeFrom(src, i, acc)), c) == Count(Spelling(acc), c) + Count(src[i..], c)
    decreases |src| - i
  {
    if i == |src| {
      SpellingAppend(acc, [Bare(Eof)]);
      assert Spelling([Bare(Eof)]) == [];
      assert Spelling(acc) + [] == Spelling(acc);
    } else {
      var (more, j) := FixedStep(src, i);
      FixedStepAccounts(src, i, c);
      SpellingAppend(acc, more);
      CountAppend(Spelling(acc), Spelling(more), c);
      assert src[i..] == src[i..j] + src[j..];
      CountAppend(src[i..j], src[j..], c);
      FixedAccountsFrom(src, j, acc + more, c);
    }
  }

  lemma FixedAccounts(src: string, c: char)
    requires Accounted(c)
    ensures Count(Spelling(FixedTokenize(src)), c) == Count(src, c)
  {
    FixedAccountsFrom(src, 0, [], c);
    assert src[0..] == src;
  }
}
