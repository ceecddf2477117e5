/**
 * The diagnostic reporter of src/reporter.rs: a parse error becomes a
 * message naming the position, followed by the source line with the span
 * highlighted in red and a line of carets under it.
 *
 * Text is ASCII here, so a character index and a byte index agree and
 * `char_indices().nth(i)` is `i` whenever `i` is inside the line.
 */
module Reporter {
  import opened Util
  import opened Ast
  import Lexing
  import opened ParseSpec

  /** The terminal escape sequences the reporter emits. */
  const Bold: string := "\U{1B}[1m"
  const Red: string := "\U{1B}[91m"
  const Reset: string := "\U{1B}[0m"

  // ---------------------------------------------------------------------------
  // Searching for newlines (`str::find`, `str::rfind`)
  // ---------------------------------------------------------------------------

  /** The first index of `c` in `s`. */
  function IndexOf(s: string, c: char): (r: Option<nat>)
    ensures r.Some? ==> r.value < |s| && s[r.value] == c
    ensures forall k :: 0 <= k < |s| && (r.None? || k < r.value) ==> s[k] != c
  {
    if s == [] then None
    else if s[0] == c then Some(0)
    else match IndexOf(s[1..], c)
      case None => None
      case Some(i) => Some(i + 1)
  }

  /** The last index of `c` in `s`. */
  function LastIndexOf(s: string, c: char): (r: Option<nat>)
    ensures r.Some? ==> r.value < |s| && s[r.value] == c
    ensures forall k :: 0 <= k < |s| && (r.None? || r.value < k) ==> s[k] != c
  {
    if s == [] then None
    else if s[|s| - 1] == c then Some(|s| - 1)
    else LastIndexOf(s[..|s| - 1], c)
  }

  // ---------------------------------------------------------------------------
  // extract_line
  // ---------------------------------------------------------------------------

  /** Just after the last newline before `ix`, or 0. */
  function LineStart(s: string, ix: nat): (start: nat)
    requires ix <= |s|
    ensures start <= ix && (start == 0 || s[start - 1] == '\n')
    ensures forall k :: start <= k < ix ==> s[k] != '\n'
  {
    match LastIndexOf(s[..ix], '\n')
    case None => 0
    case Some(n) => n + 1
  }

  /** The first newline at or after `ix`, or the end of `s`. */
  function LineEnd(s: string, ix: nat): (end: nat)
    requires ix <= |s|
    ensures ix <= end <= |s| && (end == |s| || s[end] == '\n')
    ensures forall k :: ix <= k < end ==> s[k] != '\n'
  {
    match IndexOf(s[ix..], '\n')
    case None => |s|
    case Some(n) => ix + n
  }

  /**
   * `extract_line`: the line of `s` holding index `ix`, the number of line
   * breaks before `ix` (so the first line is 0), and `ix`'s column in the
   * line. The line runs from just after the last newline before `ix` up to
   * the first newline at or after `ix`, or to the end of `s`.
   */
  function ExtractLine(s: string, ix: nat): (r: (string, nat, nat))
    requires ix <= |s|
    ensures var (line, _, col) := r; var start := ix - col;
      col <= ix && col <= |line| && start + |line| <= |s| && line == s[start..start + |line|]
      && (forall k :: 0 <= k < |line| ==> line[k] != '\n')
      && (start == 0 || s[start - 1] == '\n')
      && (start + |line| == |s| || s[start + |line|] == '\n')
  {
    var start := LineStart(s, ix);
    var end := LineEnd(s, ix);
    (s[start..end], Count(s[..ix], '\n'), ix - start)
  }

  /** The line number `extract_line` reports is the number of line breaks before the line itself. */
  lemma ExtractLineNumber(s: string, ix: nat)
    requires ix <= |s|
    ensures var (_, lineNo, col) := ExtractLine(s, ix); lineNo == Count(s[..ix - col], '\n')
  {
    var start := LineStart(s, ix);
    assert s[..ix] == s[..start] + s[start..ix];
    CountAppend(s[..start], s[start..ix], '\n');
    CountAbsent(s[start..ix], '\n');
  }

  // ---------------------------------------------------------------------------
  // highlight_line and underline_line
  // ---------------------------------------------------------------------------

  /** Where a span of `len` characters from column `ix` ends, clamped to the line. */
  function SpanEnd(line: string, ix: nat, len: nat): (e: nat)
    requires ix <= |line|
    ensures ix <= e <= |line|
    ensures e == |line| || e == ix + len
    ensures e - ix <= len
  {
    if ix + len < |line| then ix + len else |line|
  }

  /**
   * `highlight_line`: the line with the span starting at column `ix` wrapped
   * in red. The span is clamped to the end of the line.
   */
  function HighlightLine(line: string, ix: nat, len: nat): (r: string)
    requires ix <= |line|
    ensures var e := SpanEnd(line, ix, len);
      |r| == |line| + |Red| + |Reset|
      && r[..ix] == line[..ix]
      && r[ix..ix + |Red|] == Red
      && r[ix + |Red|..e + |Red|] == line[ix..e]
      && r[e + |Red|..e + |Red| + |Reset|] == Reset
      && r[e + |Red| + |Reset|..] == line[e..]
  {
    var e := SpanEnd(line, ix, len);
    line[..ix] + Red + line[ix..e] + Reset + line[e..]
  }

  /** Removing the two escape sequences from a highlighted line gives the line back. */
  lemma HighlightKeepsText(line: string, ix: nat, len: nat)
    requires ix <= |line|
    ensures var r := HighlightLine(line, ix, len); var e := SpanEnd(line, ix, len);
      r[..ix] + r[ix + |Red|..e + |Red|] + r[e + |Red| + |Reset|..] == line
  {
    var e := SpanEnd(line, ix, len);
    assert line == line[..ix] + line[ix..e] + line[e..];
  }

  /**
   * `underline_line`: one space per character of the line, with the span
   * replaced by exactly `len` carets in red. The carets are not clamped: a
   * span that runs past the line still gets `len` of them.
   */
  function UnderlineLine(line: string, ix: nat, len: nat): (r: string)
    requires ix <= |line|
    ensures var e := SpanEnd(line, ix, len);
      |r| == ix + |Red| + len + |Reset| + (|line| - e)
      && (forall i :: 0 <= i < ix ==> r[i] == ' ')
      && r[ix..ix + |Red|] == Red
      && (forall i :: ix + |Red| <= i < ix + |Red| + len ==> r[i] == '^')
      && r[ix + |Red| + len..ix + |Red| + len + |Reset|] == Reset
      && (forall i :: ix + |Red| + len + |Reset| <= i < |r| ==> r[i] == ' ')
  {
    var spaces := Repeat(' ', |line|);
    var e := SpanEnd(line, ix, len);
    spaces[..ix] + Red + Repeat('^', len) + Reset + spaces[e..]
  }

  /** The underline holds exactly `len` carets, whatever the line. */
  lemma UnderlineCarets(line: string, ix: nat, len: nat)
    requires ix <= |line|
    ensures Count(UnderlineLine(line, ix, len), '^') == len
  {
    var e := SpanEnd(line, ix, len);
    var spaces := Repeat(' ', |line|);
    CountAbsent(spaces[..ix], '^');
    CountAbsent(Red, '^');
    CountAbsent(Reset, '^');
    CountAbsent(spaces[e..], '^');
    CountRepeat('^', len);
    CountAppend(spaces[..ix], Red, '^');
    CountAppend(spaces[..ix] + Red, Repeat('^', len), '^');
    CountAppend(spaces[..ix] + Red + Repeat('^', len), Reset, '^');
    CountAppend(spaces[..ix] + Red + Repeat('^', len) + Reset, spaces[e..], '^');
  }

  lemma {:induction false} CountRepeat<T>(x: T, n: nat)
    ensures Count(Repeat(x, n), x) == n
  {
    if n > 0 {
      assert Repeat(x, n)[1..] == Repeat(x, n - 1);
      CountRepeat(x, n - 1);
    }
  }

  // ---------------------------------------------------------------------------
  // print_err and report
  // ---------------------------------------------------------------------------

  /** The first line of a message: bold `Error:`, the text, and `line:index`. */
  function Header(msg: string, lineNo: nat, ix: nat): string
  {
    "\n" + Bold + "Error: " + msg + " " + NatToString(lineNo) + ":" + NatToString(ix) + ":" + Reset + "\n\n"
  }

  /**
   * `r` is a message with header `h` about the span of `len` characters at
   * column `col` of `line`: the header, a tab, the line with the red code at
   * `col` that gives `line` back once the red and reset codes are taken out,
   * a newline and a tab, an underline with exactly `len` carets, and a
   * blank line.
   */
  predicate ShowsSpan(r: string, h: string, line: string, col: nat, len: nat)
    requires col <= |line|
  {
    var e := SpanEnd(line, col, len);
    var hlEnd := |h| + 1 + |line| + |Red| + |Reset|;
    hlEnd + 4 <= |r|
    && (var hl := r[|h| + 1..hlEnd];
        r[..|h|] == h && r[|h|] == '\t'
        && hl[..col] + hl[col + |Red|..e + |Red|] + hl[e + |Red| + |Reset|..] == line
        && hl[col..col + |Red|] == Red
        && r[hlEnd..hlEnd + 2] == "\n\t"
        && Count(r[hlEnd + 2..|r| - 2], '^') == len
        && r[|r| - 2..] == "\n\n")
  }

  /**
   * `print_err`: the header, then the highlighted line and the underline,
   * each on its own line after a tab, and a blank line. The header names the
   * number of line breaks before `ix` and `ix` itself, and the line shown is
   * the source line holding `ix` (ExtractLine), with the span at `ix`'s
   * column.
   */
  function PrintErr(src: string, msg: string, ix: nat, len: nat): (r: string)
    requires ix <= |src|
    ensures var x := ExtractLine(src, ix); ShowsSpan(r, Header(msg, Count(src[..ix], '\n'), ix), x.0, x.2, len)
  {
    var (line, lineNo, col) := ExtractLine(src, ix);
    var h := Header(msg, lineNo, ix);
    PrintErrLayout(h, line, col, len);
    h + "\t" + HighlightLine(line, col, len) + "\n\t" + UnderlineLine(line, col, len) + "\n\n"
  }

  /** The layout of a message around the line `line` with the span at column `col`. */
  lemma PrintErrLayout(h: string, line: string, col: nat, len: nat)
    requires col <= |line|
    ensures ShowsSpan(h + "\t" + HighlightLine(line, col, len) + "\n\t" + UnderlineLine(line, col, len) + "\n\n", h, line, col, len)
  {
    var hl, ul := HighlightLine(line, col, len), UnderlineLine(line, col, len);
    var r := h + "\t" + hl + "\n\t" + ul + "\n\n";
    HighlightKeepsText(line, col, len);
    UnderlineCarets(line, col, len);
    PrintErrParts(h, hl, ul);
    assert r[|h| + 1..|h| + 1 + |line| + |Red| + |Reset|] == hl;
    assert r[|h| + 3 + |hl|..|r| - 2] == ul;
  }

  /** Where the parts of a message sit in it. */
  lemma PrintErrParts(h: string, hl: string, ul: string)
    ensures var r := h + "\t" + hl + "\n\t" + ul + "\n\n";
      |r| == |h| + |hl| + |ul| + 5
      && r[..|h|] == h && r[|h|] == '\t'
      && r[|h| + 1..|h| + 1 + |hl|] == hl
      && r[|h| + 1 + |hl|..|h| + 3 + |hl|] == "\n\t"
      && r[|h| + 3 + |hl|..|r| - 2] == ul
      && r[|r| - 2..] == "\n\n"
  {
    var r := h + "\t" + hl + "\n\t" + ul + "\n\n";
    assert r == (h + "\t") + hl + "\n\t" + ul + "\n\n";
  }

  /** The position a lex error is reported at. */
  function LexErrAt(e: Lexing.LexErr): nat
  {
    match e
    case UnknownToken(at, _) => at
    case UnterminatedString(at) => at
  }

  /** Every position an error names lies inside the source text (the slicing in `extract_line` needs it). */
  predicate InSource(err: ParseErr, src: string)
  {
    match err
    case LexErr(e) => LexErrAt(e) <= |src|
    case UnexpectedEnd => true
    case _ => err.at <= |src|
  }

  /** The text `report` prints for one error. */
  function Message(err: ParseErr, src: string): (m: string)
    requires InSource(err, src)
    ensures err.UnexpectedEnd? ==> m == "Reached Unexpected End Of Input"
    ensures err.LexErr? ==> m == PrintErr(src, "Lex Err", LexErrAt(err.err), 1)
    ensures !err.UnexpectedEnd? && !err.LexErr? ==> m == PrintErr(src, Description(err), err.at, err.len)
  {
    match err
    case LexErr(e) => PrintErr(src, "Lex Err", LexErrAt(e), 1)
    case UnexpectedEnd => "Reached Unexpected End Of Input"
    case _ => PrintErr(src, Description(err), err.at, err.len)
  }

  /** What each error with a span says about itself. */
  function Description(err: ParseErr): string
    requires !err.UnexpectedEnd? && !err.LexErr?
  {
    match err
    case InvalidExpressionStart(_, _) => "Expected Expression at Position"
    case ExpectedSemi(_, _) => "Expected Semicolon at Position"
    case ExpectedTypeAnnotation(_, _) => "Expected Valid Type In Annotation at Position"
    case ExpectedColon(_, _) => "Expected Colon Starting Block"
    case UnexpectedStmt(_, _) => "Unexpected Statement (Previous statement may be missing a semicolon)"
    case UnexpectedIndent(_, _, level) => "Unexpected Indent Level At Position (Expected " + NatToString(level) + ")"
    case ExpectedToken(_, _, t) => "Expected '" + t + "' at Position"
    case UnexpectedMut(_, _) => "Unexpected `mut` - Only One Is Allowed Per Type. Encountered at Position"
    case ExpectedFnName(_, _) => "Expected Function Name at Position"
    case ExpectedNewline(_, _) => "Eepected Newline at Position"
  }

  /** `report`: a parsed block passes through unchanged; an error becomes its message. */
  function Report(parsed: Result<AstBlock, ParseErr>, src: string): (r: Result<AstBlock, string>)
    requires parsed.Err? ==> InSource(parsed.error, src)
    ensures r.Ok? <==> parsed.Ok?
    ensures parsed.Ok? ==> r.value == parsed.value
    ensures parsed.Err? ==> r.error == Message(parsed.error, src)
  {
    match parsed
    case Ok(block) => Ok(block)
    case Err(e) => Err(Message(e, src))
  }
}
