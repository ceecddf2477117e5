/**
 * What one call of `Lexer::next` and the token stream it produces promise
 * (src/lexer.rs): every token is spelled by the source text it covers, errors
 * point at the offending character, the indentation machinery turns runs of
 * four spaces into `Indent`/`Dedent`, and the keyword table is exactly the
 * nine reserved words.
 */
module LexingProps {
  import opened Util
  import opened Tokens
  import opened Lexing

  // ---------------------------------------------------------------------------
  // Spelling: what a step read
  // ---------------------------------------------------------------------------

  predicate NoQuote(s: string)
  {
    forall i :: 0 <= i < |s| ==> s[i] != '"'
  }

  /** The characters `next` does something with; any other character is an `UnknownToken`. */
  predicate StartsSomething(c: char)
  {
    IsPunctuation(c) || c == '-' || IsOperatorChar(c) || c == ' ' || c == '"' || c == '\n' || IsDigit(c) || IsAlphabetic(c)
  }

  /** The characters that are a token on their own. */
  predicate IsPunctuation(c: char) { c == '(' || c == ')' || c == ':' || c == ';' || c == ',' }

  predicate AllSpaces(src: string, from: nat, to: nat)
    requires from <= to <= |src|
  {
    forall i :: from <= i < to ==> src[i] == ' '
  }

  /**
   * A step that starts reading at offset `from` and stops at offset `to`:
   * a token at `at` after skipped spaces, spelled by `src[at..to]`; an error at
   * the offending character after skipped spaces; or the end, after nothing
   * but spaces.
   */
  predicate Accounts(src: string, from: nat, s: Step, to: nat)
    requires from <= to <= |src|
  {
    match s
    case Emit(at, t) =>
      from <= at <= to && at < |src| && AllSpaces(src, from, at) && Spells(t, src[at..to])
      && ((t.Ident? || IsKeywordToken(t)) ==> to == |src| || !IsIdentChar(src[to]))
      && (t.IntLiteral? ==> to == |src| || !IsNumericChar(src[to]))
    case Error(UnknownToken(at, end)) =>
      from <= at < |src| && end == None && AllSpaces(src, from, at) && !StartsSomething(src[at])
    case Error(UnterminatedString(at)) =>
      from <= at < |src| && AllSpaces(src, from, at) && src[at] == '"' && NoQuote(src[at + 1..])
    case End => to == |src| && AllSpaces(src, from, |src|)
    case Abort(_) => true
  }

  /** The newline flag is set by `Newline` and by nothing else except a forced `Dedent`, which keeps it. */
  predicate FlagRule(st: LexState, r: (Step, LexState))
  {
    r.0.Emit? ==>
      (r.1.justAfterNewline <==> r.0.token == Newline || (r.0.token == Dedent && st.justAfterNewline && r.1.byte == st.byte))
  }

  /** A leading space in front of what a step read is one more skipped space. */
  lemma AccountsSkip(src: string, from: nat, s: Step, to: nat)
    requires from + 1 <= to <= |src| && src[from] == ' '
    requires Accounts(src, from + 1, s, to)
    requires !s.Emit? || s.at >= from + 1
    ensures Accounts(src, from, s, to)
  {
  }

  lemma OneChar(s: string, i: nat)
    requires i < |s|
    ensures s[i..i + 1] == [s[i]]
  {
  }

  lemma KeywordDisplay(x: string)
    requires GetKeyword(x).Some?
    ensures IsKeywordToken(GetKeyword(x).value) && Display(GetKeyword(x).value) == x
  {
  }

  lemma {:induction false} NextAccounts(st: LexState)
    requires Coherent(st)
    ensures Accounts(st.src, st.byte, NextSpec(st).0, NextSpec(st).1.byte)
    ensures FlagRule(st, NextSpec(st))
    decreases |Rest(st)|, 4
  {
    if Rest(st) == [] {
    } else if st.indentLevel > 0 && st.justAfterNewline && Rest(st)[0] != ' ' && Rest(st)[0] != '\n' {
      assert st.src[st.byte..st.byte] == "";
    } else if Rest(st)[0] == ' ' && !st.justAfterNewline {
      var st1 := Advance(st, 1);
      NextAccounts(st1);
      var r := NextSpec(st1);
      assert st.src[st.byte] == ' ';
      AccountsSkip(st.src, st.byte, r.0, r.1.byte);
    } else {
      ScanAccounts(st);
    }
  }

  lemma {:induction false} ScanAccounts(st: LexState)
    requires Coherent(st) && Rest(st) != []
    requires !(Rest(st)[0] == ' ' && !st.justAfterNewline)
    ensures Accounts(st.src, st.byte, Scan(st).0, Scan(st).1.byte)
    ensures FlagRule(st, Scan(st))
    decreases |Rest(st)|, 3
  {
    var c := Rest(st)[0];
    if c == '\n' {
      OneChar(st.src, st.byte);
    } else {
      StartedAccounts(c, st.byte, Rest(st), Advance(st, 1).(justAfterNewline := false));
    }
  }

  lemma {:induction false} LeadingSpacesAccounts(at: nat, cRest: string, st: LexState)
    requires Coherent(st) && st.byte == at + 1 && cRest == st.src[at..]
    requires |cRest| > 0 && cRest[0] == ' ' && !st.justAfterNewline
    ensures Accounts(st.src, at, LeadingSpaces(at, cRest, st).0, LeadingSpaces(at, cRest, st).1.byte)
    ensures FlagRule(st, LeadingSpaces(at, cRest, st))
    decreases |cRest|, 1
  {
    var spaces := RunLength(cRest, SpaceChars);
    if spaces % 4 == 0 && spaces / 4 == st.indentLevel {
      SameLevelAccounts(at, cRest, st);
    } else {
      LayoutStepAccounts(at, cRest, st);
    }
  }

  lemma {:induction false} SameLevelAccounts(at: nat, cRest: string, st: LexState)
    requires Coherent(st) && st.byte == at + 1 && cRest == st.src[at..]
    requires |cRest| > 0 && cRest[0] == ' ' && !st.justAfterNewline
    requires RunLength(cRest, SpaceChars) % 4 == 0 && RunLength(cRest, SpaceChars) / 4 == st.indentLevel
    ensures Accounts(st.src, at, LeadingSpaces(at, cRest, st).0, LeadingSpaces(at, cRest, st).1.byte)
    ensures FlagRule(st, LeadingSpaces(at, cRest, st))
    decreases |cRest|, 0
  {
    var r := LeadingSpaces(at, cRest, st);
    assert r == NextSpec(st);
    NextAccounts(st);
    AccountsSkip(st.src, at, r.0, r.1.byte);
  }

  lemma LayoutStepAccounts(at: nat, cRest: string, st: LexState)
    requires Coherent(st) && st.byte == at + 1 && cRest == st.src[at..]
    requires |cRest| > 0 && cRest[0] == ' ' && !st.justAfterNewline
    requires !(RunLength(cRest, SpaceChars) % 4 == 0 && RunLength(cRest, SpaceChars) / 4 == st.indentLevel)
    ensures Accounts(st.src, at, LeadingSpaces(at, cRest, st).0, LeadingSpaces(at, cRest, st).1.byte)
    ensures FlagRule(st, LeadingSpaces(at, cRest, st))
  {
    var spaces := RunLength(cRest, SpaceChars);
    var r := LeadingSpaces(at, cRest, st);
    if r.0.Emit? {
      assert spaces % 4 == 0 && r.0.at == at && (r.0.token == Indent || r.0.token == Dedent);
      assert r.1.byte == at + 4 && !r.1.justAfterNewline;
      LayoutAccounts(at, cRest, st.src, spaces);
    }
  }

  /** An `Indent` or `Dedent` read from a run of spaces covers the first four of them. */
  lemma LayoutAccounts(at: nat, cRest: string, src: string, spaces: nat)
    requires at < |src| && cRest == src[at..] && spaces == RunLength(cRest, SpaceChars)
    requires spaces % 4 == 0 && spaces > 0
    ensures at + 4 <= |src| && src[at..at + 4] == "    "
  {
    assert InClass(SpaceChars, cRest[0]) && InClass(SpaceChars, cRest[1]);
    assert InClass(SpaceChars, cRest[2]) && InClass(SpaceChars, cRest[3]);
    assert src[at..at + 4] == cRest[..4];
  }

  lemma {:induction false} StartedAccounts(c: char, at: nat, cRest: string, st: LexState)
    requires Coherent(st) && st.byte == at + 1 && cRest == st.src[at..]
    requires |cRest| > 0 && cRest[0] == c && c != '\n' && !st.justAfterNewline
    ensures Accounts(st.src, at, Started(c, at, cRest, st).0, Started(c, at, cRest, st).1.byte)
    ensures FlagRule(st, Started(c, at, cRest, st))
    decreases |cRest|, 2
  {
    if c == ' ' {
      LeadingSpacesAccounts(at, cRest, st);
    } else if IsPunctuation(c) {
      PunctuationAccounts(c, at, cRest, st);
    } else if c == '-' {
      MinusAccounts(at, cRest, st);
    } else if IsOperatorChar(c) {
      OperatorAccounts(c, at, cRest, st);
    } else if c == '"' {
      StringAccounts(at, cRest, st);
    } else if IsDigit(c) {
      NumericAccounts(at, cRest, st);
    } else if IsAlphabetic(c) {
      IdentAccounts(at, cRest, st);
    } else {
      UnknownAccounts(c, at, cRest, st);
    }
  }

  lemma PunctuationAccounts(c: char, at: nat, cRest: string, st: LexState)
    requires Coherent(st) && st.byte == at + 1 && cRest == st.src[at..]
    requires |cRest| > 0 && cRest[0] == c && IsPunctuation(c) && !st.justAfterNewline
    ensures Accounts(st.src, at, Started(c, at, cRest, st).0, Started(c, at, cRest, st).1.byte)
  {
    StartedPunctuation(c, at, cRest, st);
    assert st.src[at..at + 1] == [c];
  }

  lemma UnknownAccounts(c: char, at: nat, cRest: string, st: LexState)
    requires Coherent(st) && st.byte == at + 1 && cRest == st.src[at..]
    requires |cRest| > 0 && cRest[0] == c && !st.justAfterNewline && !StartsSomething(c)
    ensures Accounts(st.src, at, Started(c, at, cRest, st).0, Started(c, at, cRest, st).1.byte)
  {
    assert Started(c, at, cRest, st).0 == Error(UnknownToken(at, None));
  }

  lemma OperatorAccounts(c: char, at: nat, cRest: string, st: LexState)
    requires Coherent(st) && st.byte == at + 1 && cRest == st.src[at..]
    requires |cRest| > 0 && cRest[0] == c && IsOperatorChar(c) && !st.justAfterNewline
    ensures Accounts(st.src, at, Started(c, at, cRest, st).0, Started(c, at, cRest, st).1.byte)
  {
    StartedOperator(c, at, cRest, st);
    OperatorRead(c, at, st);
  }

  lemma OperatorRead(c: char, at: nat, st: LexState)
    requires Coherent(st) && st.byte == at + 1 && at < |st.src| && st.src[at] == c && IsOperatorChar(c)
    ensures var r := IfEqualElse(OperatorPair(c).0, OperatorPair(c).1, at, st);
      Accounts(st.src, at, r.0, r.1.byte)
  {
    OperatorSpelling(c);
    if Rest(st) != [] && Rest(st)[0] == '=' {
      assert st.src[at..at + 2] == [c, '='];
    } else {
      assert st.src[at..at + 1] == [c];
    }
  }

  /** Each operator pair is spelled by its character, and by its character and '='. */
  lemma OperatorSpelling(c: char)
    requires IsOperatorChar(c)
    ensures Spells(OperatorPair(c).0, [c]) && Spells(OperatorPair(c).1, [c, '='])
    ensures !OperatorPair(c).0.Ident? && !IsKeywordToken(OperatorPair(c).0) && !OperatorPair(c).0.IntLiteral?
    ensures !OperatorPair(c).1.Ident? && !IsKeywordToken(OperatorPair(c).1) && !OperatorPair(c).1.IntLiteral?
  {
  }

  lemma MinusAccounts(at: nat, cRest: string, st: LexState)
    requires Coherent(st) && st.byte == at + 1 && cRest == st.src[at..]
    requires |cRest| > 0 && cRest[0] == '-' && !st.justAfterNewline
    ensures Accounts(st.src, at, Started('-', at, cRest, st).0, Started('-', at, cRest, st).1.byte)
  {
    StartedMinus(at, cRest, st);
    var src := st.src;
    if Rest(st) != [] && Rest(st)[0] == '=' {
      assert src[at..at + 2] == "-=";
    } else if Rest(st) != [] && Rest(st)[0] == '>' {
      assert src[at..at + 2] == "->";
    } else {
      assert src[at..at + 1] == "-";
    }
  }

  lemma StringAccounts(at: nat, cRest: string, st: LexState)
    requires Coherent(st) && st.byte == at + 1 && cRest == st.src[at..]
    requires |cRest| > 0 && cRest[0] == '"' && !st.justAfterNewline
    ensures Accounts(st.src, at, Started('"', at, cRest, st).0, Started('"', at, cRest, st).1.byte)
  {
    StartedString(at, cRest, st);
    StringRead(at, st);
  }

  lemma StringRead(at: nat, st: LexState)
    requires Coherent(st) && st.byte == at + 1 && st.src[at] == '"'
    ensures Accounts(st.src, at, StringLit(at, st).0, StringLit(at, st).1.byte)
  {
    var src := st.src;
    match FindChar(Rest(st), '"')
    case Some(k) =>
      assert Rest(st) == src[at + 1..];
      assert src[at + 1..at + k + 1] == Rest(st)[..k] && src[at + k + 1] == '"';
      assert src[at..at + k + 2] == [src[at]] + src[at + 1..at + k + 1] + [src[at + k + 1]];
    case None =>
      assert Rest(st) == src[at + 1..];
  }

  lemma NumericAccounts(at: nat, cRest: string, st: LexState)
    requires Coherent(st) && st.byte == at + 1 && cRest == st.src[at..]
    requires |cRest| > 0 && IsDigit(cRest[0]) && !st.justAfterNewline
    ensures Accounts(st.src, at, Started(cRest[0], at, cRest, st).0, Started(cRest[0], at, cRest, st).1.byte)
  {
    StartedNumeric(at, cRest, st);
    NumericRead(at, cRest, st);
  }

  lemma NumericRead(at: nat, cRest: string, st: LexState)
    requires Coherent(st) && st.byte == at + 1 && cRest == st.src[at..]
    requires |cRest| > 0 && IsDigit(cRest[0])
    ensures Accounts(st.src, at, Numeric(at, cRest, st).0, Numeric(at, cRest, st).1.byte)
  {
    RunInSource(at, cRest, st.src, NumericChars);
    var text := cRest[..RunLength(cRest, NumericChars)];
    if ParseI32(text).Some? {
      IntSpells(text);
    }
  }

  /** A run of digits that parses is spelled by its value. */
  lemma IntSpells(text: string)
    requires ParseI32(text).Some?
    ensures Spells(IntLiteral(ParseI32(text).value), text)
  {
  }

  /** The maximal run of class `k` at `at`, as a slice of the source, and the character that ends it. */
  lemma RunInSource(at: nat, cRest: string, src: string, k: CharClass)
    requires at <= |src| && cRest == src[at..]
    ensures var len := RunLength(cRest, k);
      at + len <= |src| && src[at..at + len] == cRest[..len]
      && (at + len == |src| || !InClass(k, src[at + len]))
  {
    var len := RunLength(cRest, k);
    if at + len < |src| {
      assert src[at + len] == cRest[len];
    }
  }

  lemma IdentAccounts(at: nat, cRest: string, st: LexState)
    requires Coherent(st) && st.byte == at + 1 && cRest == st.src[at..]
    requires |cRest| > 0 && IsAlphabetic(cRest[0]) && !st.justAfterNewline
    ensures Accounts(st.src, at, Started(cRest[0], at, cRest, st).0, Started(cRest[0], at, cRest, st).1.byte)
  {
    StartedIdent(at, cRest, st);
    IdentRead(at, cRest, st);
  }

  lemma IdentRead(at: nat, cRest: string, st: LexState)
    requires Coherent(st) && st.byte == at + 1 && cRest == st.src[at..]
    requires |cRest| > 0 && IsAlphabetic(cRest[0])
    ensures Accounts(st.src, at, IdentLit(at, cRest, st).0, IdentLit(at, cRest, st).1.byte)
  {
    var len := RunLength(cRest, IdentChars);
    RunInSource(at, cRest, st.src, IdentChars);
    IdentifierRun(cRest);
    WordSpells(cRest[..len]);
  }

  /** The identifier run at the start of a word is an identifier. */
  lemma IdentifierRun(cRest: string)
    requires |cRest| > 0 && IsAlphabetic(cRest[0])
    ensures IsIdentifier(cRest[..RunLength(cRest, IdentChars)])
  {
    var len := RunLength(cRest, IdentChars);
    assert forall i :: 0 <= i < len ==> InClass(IdentChars, cRest[..len][i]);
  }

  /** A word is spelled by itself, whether it is a keyword or an identifier. */
  lemma WordSpells(x: string)
    requires IsIdentifier(x)
    ensures Spells(WordToken(x), x)
  {
    if GetKeyword(x).Some? {
      KeywordDisplay(x);
    }
  }

  // ---------------------------------------------------------------------------
  // The dispatch of `next`, one arm at a time
  // ---------------------------------------------------------------------------

  lemma StartedSpaces(at: nat, cRest: string, st: LexState)
    requires Coherent(st) && st.byte == at + 1 && cRest == st.src[at..]
    requires |cRest| > 0 && cRest[0] == ' ' && !st.justAfterNewline
    ensures Started(' ', at, cRest, st) == LeadingSpaces(at, cRest, st)
  {
  }

  lemma StartedIdent(at: nat, cRest: string, st: LexState)
    requires Coherent(st) && st.byte == at + 1 && cRest == st.src[at..]
    requires |cRest| > 0 && IsAlphabetic(cRest[0]) && !st.justAfterNewline
    ensures Started(cRest[0], at, cRest, st) == IdentLit(at, cRest, st)
  {
  }

  lemma StartedString(at: nat, cRest: string, st: LexState)
    requires Coherent(st) && st.byte == at + 1 && cRest == st.src[at..]
    requires |cRest| > 0 && cRest[0] == '"' && !st.justAfterNewline
    ensures Started('"', at, cRest, st) == StringLit(at, st)
  {
  }

  lemma StartedNumeric(at: nat, cRest: string, st: LexState)
    requires Coherent(st) && st.byte == at + 1 && cRest == st.src[at..]
    requires |cRest| > 0 && IsDigit(cRest[0]) && !st.justAfterNewline
    ensures Started(cRest[0], at, cRest, st) == Numeric(at, cRest, st)
  {
  }

  lemma StartedMinus(at: nat, cRest: string, st: LexState)
    requires Coherent(st) && st.byte == at + 1 && cRest == st.src[at..]
    requires |cRest| > 0 && cRest[0] == '-' && !st.justAfterNewline
    ensures Started('-', at, cRest, st) == Minus(at, st)
  {
  }

  lemma StartedOperator(c: char, at: nat, cRest: string, st: LexState)
    requires Coherent(st) && st.byte == at + 1 && cRest == st.src[at..]
    requires |cRest| > 0 && cRest[0] == c && IsOperatorChar(c) && !st.justAfterNewline
    ensures Started(c, at, cRest, st) == IfEqualElse(OperatorPair(c).0, OperatorPair(c).1, at, st)
  {
  }

  /** A punctuation character is a token on its own, spelled by that character. */
  lemma StartedPunctuation(c: char, at: nat, cRest: string, st: LexState)
    requires Coherent(st) && st.byte == at + 1 && cRest == st.src[at..]
    requires |cRest| > 0 && cRest[0] == c && IsPunctuation(c) && !st.justAfterNewline
    ensures var r := Started(c, at, cRest, st);
      r.0.Emit? && r.0.at == at && FixedSpelling(r.0.token) && Display(r.0.token) == [c] && r.1 == st
  {
  }
}
