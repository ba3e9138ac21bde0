/** The lexical grammar as functions of the remaining text (src/parsing/scanner.cpp). Class Scanner in
    Scanner.dfy runs it character by character. */
module Lexer {
  import opened Tokens
  import opened Decimal

  predicate IsAlpha(c: char) { 'a' <= c <= 'z' || 'A' <= c <= 'Z' }
  predicate IsIdentChar(c: char) { IsAlpha(c) || IsDigit(c) || c == '_' }
  predicate IsBlank(c: char) { c == ' ' || c == '\r' || c == '\t' || c == '\n' }

  // ---------- Gaps between tokens ----------

  /** The text from the first stop character on. */
  function DropUntil(s: string, stop: char): (r: string)
    ensures |r| <= |s|
  {
    if |s| == 0 || s[0] == stop then s else DropUntil(s[1..], stop)
  }

  lemma {:induction false} DropUntilExact(s: string, stop: char)
    ensures var r := DropUntil(s, stop);
            && r == s[|s| - |r|..]
            && (forall i :: 0 <= i < |s| - |r| ==> s[i] != stop)
            && (|r| > 0 ==> r[0] == stop)
  {
    if |s| > 0 && s[0] != stop {
      DropUntilExact(s[1..], stop);
    }
  }

  /** The text from the end of the line on, with its newline. */
  function AfterLine(s: string): (r: string)
    ensures |r| <= |s| && r == s[|s| - |r|..]
    ensures forall i :: 0 <= i < |s| - |r| ==> s[i] != '\n'
    ensures |r| > 0 ==> r[0] == '\n'
  {
    DropUntilExact(s, '\n');
    DropUntil(s, '\n')
  }

  /** The text after the first comment end, or nothing when the comment is never closed. */
  function AfterBlock(s: string): (r: string)
    ensures |r| <= |s|
  {
    if |s| == 0 then s
    else if s[0] == '*' && |s| > 1 && s[1] == '/' then s[2..]
    else AfterBlock(s[1..])
  }

  predicate StartsWith(s: string, c: char, d: char) { |s| > 1 && s[0] == c && s[1] == d }

  /** The text without leading blanks. */
  function SkipBlanks(s: string): (r: string)
    ensures |r| <= |s| && r == s[|s| - |r|..]
    ensures forall i :: 0 <= i < |s| - |r| ==> IsBlank(s[i])
    ensures |r| > 0 ==> !IsBlank(r[0])
  {
    if |s| > 0 && IsBlank(s[0]) then SkipBlanks(s[1..]) else s
  }

  /** The text without leading blanks and comments. */
  function SkipGap(s: string): (r: string)
    ensures |r| <= |s|
    decreases |s|
  {
    if |s| == 0 then s
    else if IsBlank(s[0]) then SkipGap(s[1..])
    else if StartsWith(s, '/', '/') then SkipGap(AfterLine(s[2..]))
    else if StartsWith(s, '/', '*') then SkipGap(AfterBlock(s[2..]))
    else s
  }

  // ---------- Words and numbers ----------

  function Word(s: string): (w: string)
    ensures |w| <= |s| && w == s[..|w|]
    ensures forall i :: 0 <= i < |w| ==> IsIdentChar(w[i])
    ensures |w| < |s| ==> !IsIdentChar(s[|w|])
  {
    if |s| == 0 || !IsIdentChar(s[0]) then "" else [s[0]] + Word(s[1..])
  }

  function Digits(s: string): (d: string)
    ensures |d| <= |s| && d == s[..|d|]
    ensures forall i :: 0 <= i < |d| ==> IsDigit(d[i])
    ensures |d| < |s| ==> !IsDigit(s[|d|])
  {
    if |s| == 0 || !IsDigit(s[0]) then "" else [s[0]] + Digits(s[1..])
  }

  predicate IsKeyword(t: TokenType) {
    t.AND? || t.ELSE? || t.FALSE? || t.FOR? || t.FUN? || t.IF? || t.IN? || t.MAP? || t.NIL?
    || t.OR? || t.RETURN? || t.STRUCT? || t.TRUE? || t.VAR?
  }

  /** The type of a word: the keyword it spells, or IDENTIFIER. */
  function WordType(word: string): TokenType {
    match word
    case "and" => AND case "else" => ELSE case "false" => FALSE case "for" => FOR
    case "fun" => FUN case "if" => IF case "in" => IN case "map" => MAP case "nil" => NIL
    case "or" => OR case "return" => RETURN case "struct" => STRUCT case "true" => TRUE
    case "var" => VAR
    case _ => IDENTIFIER
  }

  // ---------- Tokens ----------

  /** One token and the text after it; Stuck when no token starts here: the scanner then skips white
      space that is not there, for ever. */
  datatype Scanned = Tok(token: Token, rest: string) | Stuck

  function TwoCharOperator(c: char, d: char): TokenType {
    if c == '!' && d == '=' then BANG_EQUAL
    else if c == '=' && d == '=' then EQUAL_EQUAL
    else if c == '>' && d == '=' then GREATER_EQUAL
    else if c == '>' && d == '>' then BIT_SHR
    else if c == '<' && d == '=' then LESS_EQUAL
    else if c == '<' && d == '<' then BIT_SHL
    else if c == '-' && d == '>' then ARROW
    else WHITESPACE
  }

  function OneCharOperator(c: char): TokenType {
    match c
    case '@' => AT case '{' => LEFT_BRACE case '}' => RIGHT_BRACE case '(' => LEFT_PAREN
    case ')' => RIGHT_PAREN case '[' => LEFT_BRACKET case ']' => RIGHT_BRACKET
    case '&' => AMPERSAND case '|' => BIT_OR case '^' => BIT_XOR case '!' => BANG
    case '~' => BIT_NOT case ':' => COLON case ',' => COMMA case '.' => DOT case ';' => SEMI
    case '=' => EQUAL case '>' => GREATER case '<' => LESS case '-' => MINUS case '%' => PERCENT
    case '+' => PLUS case '/' => SLASH case '*' => STAR
    case _ => WHITESPACE
  }

  /** The operator at the start of s and its length; WHITESPACE when there is none. */
  function OperatorAt(s: string): (r: (TokenType, nat))
    requires |s| > 0
    ensures r.0 != WHITESPACE ==> 0 < r.1 <= |s|
  {
    if |s| > 1 && TwoCharOperator(s[0], s[1]) != WHITESPACE then (TwoCharOperator(s[0], s[1]), 2)
    else (OneCharOperator(s[0]), 1)
  }

  /** A string literal from after its opening quote. The first character is taken whatever it is, and
      a quote closes the literal unless a backslash comes right before it. */
  function StringAt(s: string, read: string): (r: Scanned)
    ensures r.Tok? && |r.rest| <= |s| && (r.token.ty.STRING? || r.token.ty.ERROR?)
  {
    if |s| == 0 then Tok(Token(ERROR, "Unterminated string"), "")
    else if |s| > 1 && s[1] == '"' && s[0] != '\\' then Tok(Token(STRING, read + [s[0]]), s[2..])
    else StringAt(s[1..], read + [s[0]])
  }

  function NumberAt(s: string): (r: Scanned)
    ensures r.Tok? && |r.rest| <= |s| && (|s| > 0 && IsDigit(s[0]) ==> |r.rest| < |s|)
    ensures r.token.ty.INTEGER? || r.token.ty.FLOAT?
  {
    var whole := Digits(s);
    var rest := s[|whole|..];
    if |rest| > 0 && rest[0] == '.' then
      var part := Digits(rest[1..]);
      Tok(Token(FLOAT, whole + "." + part), rest[1 + |part|..])
    else Tok(Token(INTEGER, whole), rest)
  }

  /** The token that starts s, once blanks and comments are skipped. */
  function TokenAt(s: string): (r: Scanned)
    ensures r.Tok? ==> (r.token.ty.EOS? <==> |s| == 0) && !r.token.ty.WHITESPACE?
    ensures r.Tok? ==> |r.rest| <= |s| && (|s| > 0 ==> |r.rest| < |s|)
  {
    if |s| == 0 then Tok(Token(EOS, ""), "")
    else if s[0] == '@' && |s| > 1 && IsIdentChar(s[1]) then
      var w := Word(s[1..]);
      Tok(Token(BUILTIN_IDENTIFIER, w), s[1 + |w|..])
    else if s[0] == '"' then StringAt(s[1..], "")
    else if IsDigit(s[0]) then NumberAt(s)
    else if IsIdentChar(s[0]) then
      var w := Word(s);
      Tok(Token(WordType(w), w), s[|w|..])
    else
      var op := OperatorAt(s);
      if op.0 == WHITESPACE then Stuck else Tok(Token(op.0, ""), s[op.1..])
  }

  /** Scanner::Scan: the next token of the text. */
  function NextToken(s: string): Scanned { TokenAt(SkipGap(s)) }

  datatype Stream = Tokens(tokens: seq<Token>) | StuckIn(tokens: seq<Token>)

  /** All tokens of a text up to its end, or those before the place where the scanner gets stuck. */
  function ScanAll(s: string): Stream
    decreases |s|
  {
    match NextToken(s)
    case Stuck => StuckIn([])
    case Tok(t, rest) =>
      if t.ty == EOS then Tokens([])
      else
        match ScanAll(rest)
        case Tokens(ts) => Tokens([t] + ts)
        case StuckIn(ts) => StuckIn([t] + ts)
  }
}
