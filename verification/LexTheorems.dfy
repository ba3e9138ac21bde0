/** Scanning undoes spelling: the lexical grammar reads back exactly the tokens that were written. */
module LexTheorems {
  import opened Tokens
  import opened Decimal
  import opened Lexer

  /** The tokens written with punctuation only. */
  predicate IsOperator(t: TokenType) {
    match t
    case LEFT_PAREN | RIGHT_PAREN | LEFT_BRACE | RIGHT_BRACE | LEFT_BRACKET | RIGHT_BRACKET
       | ARROW | BANG | BIT_NOT | COLON | DOT | SEMI | AT | EQUAL | COMMA
       | BIT_OR | BIT_XOR | AMPERSAND | BIT_SHL | BIT_SHR | PLUS | MINUS | STAR | SLASH | PERCENT
       | BANG_EQUAL | EQUAL_EQUAL | GREATER | GREATER_EQUAL | LESS | LESS_EQUAL => true
    case _ => false
  }

  lemma OneCharText(c: char)
    requires OneCharOperator(c) != WHITESPACE
    ensures IsOperator(OneCharOperator(c)) && Text(OneCharOperator(c)) == [c]
  {
  }

  lemma TwoCharText(c: char, d: char)
    requires TwoCharOperator(c, d) != WHITESPACE
    ensures IsOperator(TwoCharOperator(c, d)) && Text(TwoCharOperator(c, d)) == [c, d]
  {
  }

  /** Every operator is found from its own characters. */
  lemma OperatorFromText(t: TokenType)
    requires IsOperator(t)
    ensures t != WHITESPACE && (|Text(t)| == 1 || |Text(t)| == 2)
    ensures |Text(t)| == 1 ==> OneCharOperator(Text(t)[0]) == t
    ensures |Text(t)| == 2 ==> TwoCharOperator(Text(t)[0], Text(t)[1]) == t && OneCharOperator(Text(t)[0]) != WHITESPACE
  {
  }

  /** Maximal munch: the operator found is the longest whose text starts s, and one is found whenever
      the text of some operator starts s. */
  lemma MaximalMunch(s: string, t: TokenType)
    requires |s| > 0 && IsOperator(t) && Text(t) <= s
    ensures var (op, n) := OperatorAt(s);
            IsOperator(op) && Text(op) == s[..n] && |Text(t)| <= n
  {
    hide OneCharOperator, TwoCharOperator, IsOperator, Text;
    OperatorFromText(t);
    var two := |s| > 1 && TwoCharOperator(s[0], s[1]) != WHITESPACE;
    if two {
      TwoCharText(s[0], s[1]);
      assert s[..2] == [s[0], s[1]];
    } else {
      OneCharText(s[0]);
      assert s[..1] == [s[0]];
    }
  }

  // ---------- Well-formed tokens and their spelling ----------

  predicate AllIdent(s: string) { forall i :: 0 <= i < |s| ==> IsIdentChar(s[i]) }

  /** The contents a string literal can have: not empty, no backslash at the end, and every quote after
      the first character right behind a backslash. */
  predicate Quotable(s: string) {
    && |s| > 0 && s[|s| - 1] != '\\'
    && forall i :: 0 < i < |s| && s[i] == '"' ==> s[i - 1] == '\\'
  }

  predicate IsFloat(s: string) {
    exists n :: 0 < n < |s| && AllDigits(s[..n]) && s[n] == '.' && AllDigits(s[n + 1..])
  }

  predicate WellFormed(t: Token) {
    if t.ty.IDENTIFIER? then
      |t.literal| > 0 && AllIdent(t.literal) && !IsDigit(t.literal[0]) && WordType(t.literal) == IDENTIFIER
    else if t.ty.BUILTIN_IDENTIFIER? then |t.literal| > 0 && AllIdent(t.literal)
    else if t.ty.INTEGER? then |t.literal| > 0 && AllDigits(t.literal)
    else if t.ty.FLOAT? then IsFloat(t.literal)
    else if t.ty.STRING? then Quotable(t.literal)
    else if IsKeyword(t.ty) then t.literal == Text(t.ty)
    else IsOperator(t.ty) && t.literal == ""
  }

  /** The characters of a token. */
  function Spell(t: Token): string {
    match t.ty
    case IDENTIFIER | INTEGER | FLOAT => t.literal
    case BUILTIN_IDENTIFIER => "@" + t.literal
    case STRING => "\"" + t.literal + "\""
    case _ => Text(t.ty)
  }

  /** The next character, if any, does not run into the token. */
  predicate Separate(t: TokenType, rest: string) {
    |rest| == 0 ||
    var c := rest[0];
    match t
    case IDENTIFIER | BUILTIN_IDENTIFIER | AT => !IsIdentChar(c)
    case INTEGER => !IsDigit(c) && c != '.'
    case FLOAT => !IsDigit(c)
    case BANG | EQUAL => c != '='
    case GREATER => c != '=' && c != '>'
    case LESS => c != '=' && c != '<'
    case MINUS => c != '>'
    case SLASH => c != '/' && c != '*'
    case STRING => true
    case _ => IsKeyword(t) ==> !IsIdentChar(c)
  }

  lemma {:induction false} WordOfPrefix(w: string, rest: string)
    requires AllIdent(w) && (|rest| == 0 || !IsIdentChar(rest[0]))
    ensures Word(w + rest) == w
  {
    if |w| > 0 {
      assert (w + rest)[1..] == w[1..] + rest;
      WordOfPrefix(w[1..], rest);
    } else {
      assert w + rest == rest;
    }
  }

  lemma {:induction false} DigitsOfPrefix(d: string, rest: string)
    requires AllDigits(d) && (|rest| == 0 || !IsDigit(rest[0]))
    ensures Digits(d + rest) == d
  {
    if |d| > 0 {
      assert (d + rest)[1..] == d[1..] + rest;
      DigitsOfPrefix(d[1..], rest);
    } else {
      assert d + rest == rest;
    }
  }

  lemma {:induction false} StringReadsBack(s: string, rest: string, read: string)
    requires Quotable(s)
    ensures StringAt(s + "\"" + rest, read) == Tok(Token(STRING, read + s), rest)
    decreases |s|
  {
    var text := s + "\"" + rest;
    if |s| == 1 {
      assert text[2..] == rest && text[1] == '"';
    } else {
      assert text[1] == s[1] && text[0] == s[0];
      assert text[1..] == s[1..] + "\"" + rest;
      assert Quotable(s[1..]);
      StringReadsBack(s[1..], rest, read + [s[0]]);
      assert read + [s[0]] + s[1..] == read + s;
    }
  }

  /** A string literal scans back to its contents exactly when they are quotable; the empty literal in
      particular does not. */
  lemma {:induction false} StringExact(s: string, rest: string)
    ensures TokenAt("\"" + s + "\"" + rest) == Tok(Token(STRING, s), rest) <==> Quotable(s)
  {
    var text := "\"" + s + "\"" + rest;
    assert text[1..] == s + "\"" + rest;
    if Quotable(s) {
      StringReadsBack(s, rest, "");
      assert "" + s == s;
    }
    if TokenAt(text) == Tok(Token(STRING, s), rest) {
      StringReads(text[1..], "");
      assert text[1..] == s + "\"" + rest;
    }
  }

  /** What a scanned string literal holds: the characters read before and a quotable rest. */
  lemma {:induction false} StringReads(text: string, read: string)
    ensures var r := StringAt(text, read);
            r.Tok? && (r.token.ty == STRING ==>
              && |text| > 0 && |read| < |r.token.literal|
              && read == r.token.literal[..|read|] && r.token.literal[|read|] == text[0]
              && Quotable(r.token.literal[|read|..]))
    decreases |text|
  {
    if |text| > 0 && !(|text| > 1 && text[1] == '"' && text[0] != '\\') {
      StringReads(text[1..], read + [text[0]]);
      var r := StringAt(text, read);
      if r.token.ty == STRING {
        var lit := r.token.literal;
        assert lit[..|read| + 1] == read + [text[0]];
        assert lit[|read|] == (read + [text[0]])[|read|];
        assert lit[..|read|] == lit[..|read| + 1][..|read|];
        assert lit[|read| + 1..] == lit[|read|..][1..];
      }
    }
  }

  // ---------- One token ----------

  lemma KeywordFromText(t: TokenType)
    requires IsKeyword(t)
    ensures WordType(Text(t)) == t
  {
    hide WordType, Text;
    if IsEarly(t) { EarlyKeywordFromText(t); } else { LateKeywordFromText(t); }
  }

  predicate IsEarly(t: TokenType) { t.AND? || t.ELSE? || t.FALSE? || t.FOR? || t.FUN? || t.IF? || t.IN? }

  lemma EarlyKeywordFromText(t: TokenType)
    requires IsEarly(t)
    ensures WordType(Text(t)) == t
  {
  }

  lemma LateKeywordFromText(t: TokenType)
    requires IsKeyword(t) && !IsEarly(t)
    ensures WordType(Text(t)) == t
  {
  }

  lemma KeywordIsWord(t: TokenType)
    requires IsKeyword(t)
    ensures |Text(t)| > 0 && AllIdent(Text(t)) && IsAlpha(Text(t)[0])
  {
    hide WordType, AllIdent, IsAlpha;
    if IsEarly(t) {
      EarlyKeywordIsWord(t);
    } else {
      LateKeywordIsWord(t);
    }
  }

  lemma EarlyKeywordIsWord(t: TokenType)
    requires IsEarly(t)
    ensures |Text(t)| > 0 && AllIdent(Text(t)) && IsAlpha(Text(t)[0])
  {
  }

  lemma LateKeywordIsWord(t: TokenType)
    requires IsKeyword(t) && !IsEarly(t)
    ensures |Text(t)| > 0 && AllIdent(Text(t)) && IsAlpha(Text(t)[0])
  {
  }

  /** A word is a keyword exactly when it is that keyword's text. */
  lemma KeywordExact(word: string, t: TokenType)
    requires IsKeyword(t)
    ensures WordType(word) == t <==> word == Text(t)
  {
    KeywordFromText(t);
  }

  lemma {:induction false} WordScans(w: string, rest: string)
    requires |w| > 0 && AllIdent(w) && !IsDigit(w[0])
    ensures TokenAt(w + rest) == Tok(Token(WordType(w), w), rest) <==> |rest| == 0 || !IsIdentChar(rest[0])
  {
    hide WordType;
    var s := w + rest;
    assert s[0] == w[0];
    if |rest| == 0 || !IsIdentChar(rest[0]) {
      WordOfPrefix(w, rest);
      assert s[|w|..] == rest;
    } else if |Word(s)| < |s| {
      assert IsIdentChar(s[|w|]);
      assert Word(s)[..] == s[..|Word(s)|];
      assert forall i :: 0 <= i <= |w| ==> IsIdentChar(s[i]);
    }
  }

  lemma {:induction false} BuiltinScans(w: string, rest: string)
    requires |w| > 0 && AllIdent(w)
    ensures TokenAt("@" + w + rest) == Tok(Token(BUILTIN_IDENTIFIER, w), rest) <==> |rest| == 0 || !IsIdentChar(rest[0])
  {
    var s := "@" + w + rest;
    assert s[1..] == w + rest;
    if |rest| == 0 || !IsIdentChar(rest[0]) {
      WordOfPrefix(w, rest);
      assert s[1 + |w|..] == rest;
    } else {
      assert (w + rest)[|w|] == rest[0];
    }
  }

  lemma DigitStartsNumber(s: string)
    requires |s| > 0 && IsDigit(s[0])
    ensures TokenAt(s) == NumberAt(s)
  {
    hide WordType, OperatorAt, StringAt, Word, NumberAt;
  }

  lemma {:induction false} IntegerScans(d: string, rest: string)
    requires |d| > 0 && AllDigits(d)
    ensures TokenAt(d + rest) == Tok(Token(INTEGER, d), rest) <==> Separate(INTEGER, rest)
  {
    hide TokenAt, Digits;
    var s := d + rest;
    assert s[0] == d[0] && IsDigit(s[0]);
    DigitStartsNumber(s);
    if |rest| == 0 || !IsDigit(rest[0]) {
      DigitsOfPrefix(d, rest);
      assert s[|d|..] == rest;
    } else {
      assert s[|d|] == rest[0];
    }
  }

  lemma {:induction false} NumberWithPoint(whole: string, part: string, rest: string)
    requires |whole| > 0 && AllDigits(whole) && AllDigits(part) && (|rest| == 0 || !IsDigit(rest[0]))
    ensures TokenAt(whole + "." + part + rest) == Tok(Token(FLOAT, whole + "." + part), rest)
  {
    hide TokenAt, NumberAt, Digits;
    var tail := "." + part + rest;
    var s := whole + tail;
    assert whole + "." + part + rest == s;
    assert s[0] == whole[0];
    DigitStartsNumber(s);
    DigitsOfPrefix(whole, tail);
    DigitsOfPrefix(part, rest);
    assert s[|whole|..] == tail;
    assert tail[1..] == part + rest && tail[1 + |part|..] == rest;
    PointedNumberAt(s, whole, tail, part, rest);
  }

  lemma PointedNumberAt(s: string, whole: string, tail: string, part: string, rest: string)
    requires Digits(s) == whole && s[|whole|..] == tail && |tail| > 0 && tail[0] == '.'
    requires Digits(tail[1..]) == part && tail[1 + |part|..] == rest
    ensures NumberAt(s) == Tok(Token(FLOAT, whole + "." + part), rest)
  {
    hide Digits;
  }

  lemma {:induction false} FloatScans(f: string, rest: string)
    requires IsFloat(f)
    ensures TokenAt(f + rest) == Tok(Token(FLOAT, f), rest) <==> Separate(FLOAT, rest)
  {
    hide TokenAt;
    var n :| 0 < n < |f| && AllDigits(f[..n]) && f[n] == '.' && AllDigits(f[n + 1..]);
    assert f == f[..n] + "." + f[n + 1..];
    if |rest| == 0 || !IsDigit(rest[0]) {
      NumberWithPoint(f[..n], f[n + 1..], rest);
    } else {
      FloatTakesMore(f[..n], f[n + 1..], rest);
    }
  }

  lemma {:induction false} FloatTakesMore(whole: string, part: string, rest: string)
    requires |whole| > 0 && AllDigits(whole) && AllDigits(part) && |rest| > 0 && IsDigit(rest[0])
    ensures TokenAt(whole + "." + part + rest) != Tok(Token(FLOAT, whole + "." + part), rest)
  {
    hide TokenAt;
    var more := Digits(rest);
    NumberWithPoint(whole, part + more, rest[|more|..]);
    assert whole + "." + part + rest == whole + "." + (part + more) + rest[|more|..];
  }

  /** A one-character operator grows into a longer one exactly on the characters Separate excludes. */
  lemma OneCharGrows(t: TokenType, c: char)
    requires IsOperator(t) && |Text(t)| == 1 && t != SLASH && t != AT
    ensures TwoCharOperator(Text(t)[0], c) == WHITESPACE <==> Separate(t, [c])
  {
    hide TwoCharOperator, Separate;
    if StartsLonger(t) { LongerGrows(t, c); } else { NeverGrows(t, c); }
  }

  predicate StartsLonger(t: TokenType) { t.BANG? || t.EQUAL? || t.GREATER? || t.LESS? || t.MINUS? }

  lemma LongerGrows(t: TokenType, c: char)
    requires StartsLonger(t)
    ensures |Text(t)| == 1 && (TwoCharOperator(Text(t)[0], c) == WHITESPACE <==> Separate(t, [c]))
  {
  }

  lemma NeverGrows(t: TokenType, c: char)
    requires IsOperator(t) && |Text(t)| == 1 && t != SLASH && t != AT && !StartsLonger(t)
    ensures TwoCharOperator(Text(t)[0], c) == WHITESPACE && Separate(t, [c])
  {
    assert TwoCharOperator(Text(t)[0], c) == WHITESPACE by {
      hide TwoCharOperator, Separate;
      NoLongerStart(t);
      NoLonger(Text(t)[0], c);
    }
    hide Text, TwoCharOperator;
  }

  lemma NoLongerStart(t: TokenType)
    requires IsOperator(t) && |Text(t)| == 1 && !StartsLonger(t)
    ensures var d := Text(t)[0]; d != '!' && d != '=' && d != '>' && d != '<' && d != '-'
  {
  }

  lemma NoLonger(d: char, c: char)
    requires d != '!' && d != '=' && d != '>' && d != '<' && d != '-'
    ensures TwoCharOperator(d, c) == WHITESPACE
  {
  }

  lemma {:induction false} OperatorScans(t: TokenType, rest: string)
    requires IsOperator(t) && t != SLASH && t != AT
    ensures TokenAt(Text(t) + rest) == Tok(Token(t, ""), rest) <==> Separate(t, rest)
  {
    var s := Text(t) + rest;
    OperatorFromText(t);
    OperatorIsNoWord(t);
    hide IsOperator, Text, OneCharOperator, TwoCharOperator;
    if |Text(t)| == 1 {
      assert s[0] == Text(t)[0] && s[1..] == rest;
      if |rest| > 0 {
        assert s[1] == rest[0];
        OneCharGrows(t, rest[0]);
      }
    } else {
      assert s[0] == Text(t)[0] && s[1] == Text(t)[1] && s[2..] == rest;
      TwoCharsSeparate(t, rest);
    }
  }

  lemma OperatorIsNoWord(t: TokenType)
    requires IsOperator(t)
    ensures |Text(t)| > 0 && !IsIdentChar(Text(t)[0]) && Text(t)[0] != '"' && (Text(t)[0] == '@' ==> t == AT)
  {
  }

  lemma TwoCharsSeparate(t: TokenType, rest: string)
    requires IsOperator(t) && |Text(t)| == 2
    ensures Separate(t, rest)
  {
  }

  lemma AtScans(rest: string)
    ensures TokenAt("@" + rest) == Tok(Token(AT, ""), rest) <==> Separate(AT, rest)
  {
    var s := "@" + rest;
    assert s[1..] == rest && (|rest| > 0 ==> s[1] == rest[0]);
  }

  predicate HasText(t: TokenType) {
    t.IDENTIFIER? || t.BUILTIN_IDENTIFIER? || t.INTEGER? || t.FLOAT? || t.STRING?
  }

  lemma {:induction false} LiteralScans(t: Token, rest: string)
    requires WellFormed(t) && HasText(t.ty)
    ensures TokenAt(Spell(t) + rest) == Tok(t, rest) <==> Separate(t.ty, rest)
  {
    hide TokenAt, WordType, IsKeyword, Text, IsOperator;
    match t.ty
    case IDENTIFIER => WordScans(t.literal, rest);
    case BUILTIN_IDENTIFIER => BuiltinScans(t.literal, rest);
    case INTEGER => IntegerScans(t.literal, rest);
    case FLOAT => FloatScans(t.literal, rest);
    case STRING => StringExact(t.literal, rest);
  }

  lemma {:induction false} FixedTextScans(t: Token, rest: string)
    requires WellFormed(t) && !HasText(t.ty) && !t.ty.SLASH?
    ensures TokenAt(Spell(t) + rest) == Tok(t, rest) <==> Separate(t.ty, rest)
  {
    hide TokenAt, WordType, Text;
    if IsKeyword(t.ty) {
      KeywordIsWord(t.ty);
      KeywordFromText(t.ty);
      WordScans(t.literal, rest);
    } else if t.ty.AT? {
      assert Text(AT) == "@" by { TextOfAt(); }
      AtScans(rest);
    } else {
      OperatorScans(t.ty, rest);
    }
  }

  lemma TextOfAt()
    ensures Text(AT) == "@" && Text(SLASH) == "/"
  {
  }

  /** A well-formed token is read back from its spelling exactly when the text after it is separate. */
  lemma {:induction false} TokenScans(t: Token, rest: string)
    requires WellFormed(t)
    ensures NextToken(Spell(t) + rest) == Tok(t, rest) <==> Separate(t.ty, rest)
  {
    hide TokenAt, SkipGap, Separate;
    if t.ty.SLASH? {
      SlashScans(rest);
    } else {
      NoGapBefore(t, rest);
      if HasText(t.ty) { LiteralScans(t, rest); } else { FixedTextScans(t, rest); }
    }
  }

  lemma {:induction false} NoGapBefore(t: Token, rest: string)
    requires WellFormed(t) && !t.ty.SLASH?
    ensures SkipGap(Spell(t) + rest) == Spell(t) + rest
  {
    hide Spell, WellFormed;
    SpellVisible(t);
    assert (Spell(t) + rest)[0] == Spell(t)[0];
  }

  /** The spelling starts with a character that no gap starts with. */
  predicate Visible(s: string) { |s| > 0 && !IsBlank(s[0]) && s[0] != '/' }

  lemma SpellVisible(t: Token)
    requires WellFormed(t) && !t.ty.SLASH?
    ensures Visible(Spell(t))
  {
    hide WellFormed, Spell, Visible;
    if HasText(t.ty) { LiteralVisible(t); } else { FixedTextVisible(t); }
  }

  lemma LiteralVisible(t: Token)
    requires WellFormed(t) && HasText(t.ty)
    ensures Visible(Spell(t))
  {
    hide Text, WordType, IsOperator, IsKeyword, IsFloat, Quotable;
    if t.ty.FLOAT? { FloatOpens(t.literal); }
  }

  lemma FloatOpens(f: string)
    requires IsFloat(f)
    ensures |f| > 0 && IsDigit(f[0])
  {
    var n :| 0 < n < |f| && AllDigits(f[..n]) && f[n] == '.' && AllDigits(f[n + 1..]);
    assert IsDigit(f[..n][0]);
  }

  lemma FixedTextVisible(t: Token)
    requires WellFormed(t) && !HasText(t.ty) && !t.ty.SLASH?
    ensures Visible(Spell(t))
  {
    hide Text, WordType, IsOperator;
    if IsKeyword(t.ty) { KeywordIsWord(t.ty); } else { OperatorVisible(t.ty); }
  }

  lemma OperatorVisible(t: TokenType)
    requires IsOperator(t) && !t.SLASH?
    ensures Visible(Text(t))
  {
  }

  lemma {:induction false} SlashScans(rest: string)
    ensures NextToken("/" + rest) == Tok(Token(SLASH, ""), rest) <==> Separate(SLASH, rest)
  {
    hide TokenAt, SkipGap;
    if Separate(SLASH, rest) {
      SlashStands(rest);
    } else {
      SlashSkips(rest);
    }
  }

  lemma SlashStands(rest: string)
    requires |rest| == 0 || (rest[0] != '/' && rest[0] != '*')
    ensures NextToken("/" + rest) == Tok(Token(SLASH, ""), rest)
  {
    var s := "/" + rest;
    assert s[0] == '/' && s[1..] == rest;
    assert |rest| > 0 ==> s[1] == rest[0];
    assert SkipGap(s) == s by { hide TokenAt, AfterLine, AfterBlock; }
    hide SkipGap;
    SlashIsOperator(s);
  }

  lemma SlashIsOperator(s: string)
    requires |s| > 0 && s[0] == '/'
    ensures TokenAt(s) == Tok(Token(SLASH, ""), s[1..])
  {
  }

  lemma SlashSkips(rest: string)
    requires |rest| > 0 && (rest[0] == '/' || rest[0] == '*')
    ensures |SkipGap("/" + rest)| < |rest|
  {
    hide AfterLine, AfterBlock;
    var s := "/" + rest;
    assert s[0] == '/' && s[1] == rest[0] && |s[2..]| == |rest| - 1;
    assert !IsBlank('/');
  }

  // ---------- Gaps ----------

  /** A comment end somewhere in the text. */
  predicate HasCommentEnd(s: string) { exists i :: 0 <= i < |s| - 1 && s[i] == '*' && s[i + 1] == '/' }

  predicate HasNewline(s: string) { '\n' in s }

  /** A blank, a line comment with its newline, or a block comment, which its first end closes. */
  predicate IsPiece(p: string) {
    || (|p| == 1 && IsBlank(p[0]))
    || (|p| > 2 && p[..2] == "//" && p[|p| - 1] == '\n' && !HasNewline(p[2..|p| - 1]))
    || (|p| > 3 && p[..2] == "/*" && p[|p| - 2..] == "*/" && !HasCommentEnd(p[2..|p| - 2]))
  }

  /** Any run of blanks and comments. */
  predicate IsGap(g: string) {
    |g| == 0 || exists n :: 0 < n <= |g| && IsPiece(g[..n]) && IsGap(g[n..])
  }

  /** A block comment ends at its first end. */
  lemma {:induction false} BlockCloses(body: string, rest: string)
    requires !HasCommentEnd(body)
    ensures AfterBlock(body + "*/" + rest) == rest
    decreases |body|
  {
    var s := body + "*/" + rest;
    if |body| == 0 {
      assert s[0] == '*' && s[1] == '/' && s[2..] == rest;
    } else {
      assert s[0] == body[0] && s[1] == (body + "*/")[1];
      assert s[1..] == body[1..] + "*/" + rest;
      BlockCloses(body[1..], rest);
    }
  }

  /** A block comment without an end swallows the rest of the text. */
  lemma {:induction false} BlockStaysOpen(s: string)
    requires !HasCommentEnd(s)
    ensures AfterBlock(s) == ""
  {
    if |s| > 0 {
      BlockStaysOpen(s[1..]);
    }
  }

  /** A line comment ends before its newline. */
  lemma LineEnds(body: string, rest: string)
    requires !HasNewline(body)
    ensures AfterLine(body + "\n" + rest) == "\n" + rest
  {
    hide AfterLine;
    var s := body + "\n" + rest;
    var r := AfterLine(s);
    assert s[|body|] == '\n';
    assert forall i :: 0 <= i < |body| ==> s[i] == body[i];
    assert |s| - |r| == |body|;
  }

  lemma {:induction false} PieceSkips(p: string, rest: string)
    requires IsPiece(p)
    ensures SkipGap(p + rest) == SkipGap(rest)
  {
    hide AfterLine, AfterBlock;
    var s := p + rest;
    assert s[0] == p[0];
    if |p| == 1 {
      assert s[1..] == rest;
    } else {
      assert s[1] == p[..2][1] && p[0] == p[..2][0];
      if p[..2] == "//" {
        var body := p[2..|p| - 1];
        assert s[2..] == body + "\n" + rest;
        LineEnds(body, rest);
        assert ("\n" + rest)[1..] == rest;
      } else {
        var body := p[2..|p| - 2];
        assert s[2..] == body + "*/" + rest;
        BlockCloses(body, rest);
      }
    }
  }

  lemma {:induction false} GapSkips(g: string, rest: string)
    requires IsGap(g)
    ensures SkipGap(g + rest) == SkipGap(rest)
    decreases |g|
  {
    hide SkipGap, IsPiece;
    if |g| == 0 {
      assert g + rest == rest;
    } else {
      var n :| 0 < n <= |g| && IsPiece(g[..n]) && IsGap(g[n..]);
      assert g + rest == g[..n] + (g[n..] + rest);
      PieceSkips(g[..n], g[n..] + rest);
      GapSkips(g[n..], rest);
    }
  }

  // ---------- Whole texts ----------

  /** Text as it is written: spelt tokens and gaps. */
  datatype Chunk = Spelt(token: Token) | Gap(text: string)

  function Render(cs: seq<Chunk>): string {
    if |cs| == 0 then ""
    else (match cs[0] case Spelt(t) => Spell(t) case Gap(g) => g) + Render(cs[1..])
  }

  function TokensOf(cs: seq<Chunk>): seq<Token> {
    if |cs| == 0 then []
    else (match cs[0] case Spelt(t) => [t] case Gap(_) => []) + TokensOf(cs[1..])
  }

  /** Well-formed tokens and proper gaps, no token running into what follows it. */
  predicate Spaced(cs: seq<Chunk>, rest: string) {
    |cs| == 0 ||
    (&& (match cs[0]
         case Spelt(t) => WellFormed(t) && Separate(t.ty, Render(cs[1..]) + rest)
         case Gap(g) => IsGap(g))
     && Spaced(cs[1..], rest))
  }

  /** Lexical round trip: well-spaced text scans back to its tokens and then the rest. */
  lemma {:induction false} LexicalRoundTrip(cs: seq<Chunk>)
    requires Spaced(cs, "")
    ensures ScanAll(Render(cs)) == Tokens(TokensOf(cs))
    decreases |cs|
  {
    hide TokenAt, Spell, Separate, WellFormed, SkipGap, WordType, Text;
    if |cs| == 0 {
      NothingLeft();
    } else {
      LexicalRoundTrip(cs[1..]);
      var after := Render(cs[1..]);
      assert after + "" == after;
      match cs[0] {
        case Spelt(t) =>
          TokenScans(t, after);
          NotTheEnd(t);
        case Gap(g) =>
          GapSkips(g, after);
          ScanSkips(g + after, after);
      }
    }
  }

  lemma ScanSkips(s: string, t: string)
    requires SkipGap(s) == SkipGap(t)
    ensures ScanAll(s) == ScanAll(t)
  {
    hide TokenAt;
  }

  lemma NothingLeft()
    ensures NextToken("") == Tok(Token(EOS, ""), "")
  {
  }

  lemma NotTheEnd(t: Token)
    requires WellFormed(t)
    ensures t.ty != EOS
  {
  }

  /** With a gap that starts with a blank after every token nothing else is needed. */
  lemma {:induction false} BlanksSuffice(cs: seq<Chunk>)
    requires |cs| % 2 == 0
    requires forall i :: 0 <= i < |cs| ==>
               if i % 2 == 0 then cs[i].Spelt? && WellFormed(cs[i].token)
               else cs[i].Gap? && IsGap(cs[i].text) && |cs[i].text| > 0 && IsBlank(cs[i].text[0])
    ensures Spaced(cs, "")
  {
    hide WellFormed, IsGap, Spell;
    if |cs| > 0 {
      assert cs[2..] == cs[1..][1..];
      BlanksSuffice(cs[2..]);
      assert Render(cs[1..]) == cs[1].text + Render(cs[2..]);
      assert (Render(cs[1..]) + "")[0] == cs[1].text[0];
      assert Spaced(cs[1..], "");
    }
  }

  lemma {:induction false} RenderAppend(a: seq<Chunk>, b: seq<Chunk>)
    ensures Render(a + b) == Render(a) + Render(b)
  {
    hide Spell;
    if |a| == 0 {
      assert a + b == b;
    } else {
      assert (a + b)[1..] == a[1..] + b;
      RenderAppend(a[1..], b);
    }
  }

  lemma {:induction false} TokensAppend(a: seq<Chunk>, b: seq<Chunk>)
    ensures TokensOf(a + b) == TokensOf(a) + TokensOf(b)
  {
    if |a| == 0 {
      assert a + b == b;
    } else {
      assert (a + b)[0] == a[0] && (a + b)[1..] == a[1..] + b;
      TokensAppend(a[1..], b);
      var first := match a[0] case Spelt(t) => [t] case Gap(_) => [];
      assert TokensOf(a) == first + TokensOf(a[1..]);
      assert first + (TokensOf(a[1..]) + TokensOf(b)) == (first + TokensOf(a[1..])) + TokensOf(b);
    }
  }

  // ---------- What the scanner can return ----------

  /** Spelling undoes scanning: a scanned token is well-formed and is what its text spells, unless it
      reports a string without an end. */
  lemma ScannedIsSpelt(s: string)
    requires |s| > 0 && TokenAt(s).Tok? && !TokenAt(s).token.ty.ERROR?
    ensures WellFormed(TokenAt(s).token) && s == Spell(TokenAt(s).token) + TokenAt(s).rest
  {
    hide WellFormed, Spell, NumberAt, StringAt, OperatorAt;
    if s[0] == '@' && |s| > 1 && IsIdentChar(s[1]) {
      BuiltinSpelt(s);
    } else if s[0] == '"' {
      StringSpelt(s);
    } else if IsDigit(s[0]) {
      NumberSpelt(s);
    } else if IsIdentChar(s[0]) {
      WordSpelt(s);
    } else {
      OperatorSpelt(s);
    }
  }

  lemma BuiltinSpelt(s: string)
    requires |s| > 1 && s[0] == '@' && IsIdentChar(s[1])
    ensures WellFormed(TokenAt(s).token) && s == Spell(TokenAt(s).token) + TokenAt(s).rest
  {
    hide Text, WordType;
    var w := Word(s[1..]);
    assert s == "@" + w + s[1 + |w|..];
  }

  lemma StringSpelt(s: string)
    requires |s| > 0 && s[0] == '"' && StringAt(s[1..], "").token.ty.STRING?
    ensures var r := StringAt(s[1..], ""); WellFormed(r.token) && s == Spell(r.token) + r.rest
  {
    hide Text, WordType, StringAt, WellFormed, Spell;
    StringReads(s[1..], "");
    StringText(s[1..], "");
    var r := StringAt(s[1..], "");
    assert r.token.literal[0..] == r.token.literal;
    QuotedSpelt(r.token.literal);
    assert s == "\"" + ("" + s[1..]);
  }

  lemma QuotedSpelt(s: string)
    requires Quotable(s)
    ensures WellFormed(Token(STRING, s)) && Spell(Token(STRING, s)) == "\"" + s + "\""
  {
    hide Text, WordType;
  }

  lemma {:induction false} StringText(text: string, read: string)
    requires StringAt(text, read).token.ty.STRING?
    ensures read + text == StringAt(text, read).token.literal + "\"" + StringAt(text, read).rest
    decreases |text|
  {
    if |text| > 1 && text[1] == '"' && text[0] != '\\' {
      assert text == [text[0]] + "\"" + text[2..];
    } else {
      StringText(text[1..], read + [text[0]]);
      assert read + text == read + [text[0]] + text[1..];
    }
  }

  lemma NumberSpelt(s: string)
    requires |s| > 0 && IsDigit(s[0])
    ensures WellFormed(NumberAt(s).token) && s == Spell(NumberAt(s).token) + NumberAt(s).rest
  {
    hide Text, WordType, IsFloat, WellFormed, Spell;
    var whole := Digits(s);
    var rest := s[|whole|..];
    assert s == whole + rest;
    NumeralSpelt(whole);
    if |rest| > 0 && rest[0] == '.' {
      var part := Digits(rest[1..]);
      FloatWritten(whole, part);
      FloatSpelt(whole + "." + part);
      PointSplits(whole, rest, part);
    }
  }

  lemma NumeralSpelt(d: string)
    requires |d| > 0 && AllDigits(d)
    ensures WellFormed(Token(INTEGER, d)) && Spell(Token(INTEGER, d)) == d
  {
    hide Text, WordType;
  }

  lemma FloatSpelt(f: string)
    requires IsFloat(f)
    ensures WellFormed(Token(FLOAT, f)) && Spell(Token(FLOAT, f)) == f
  {
    hide Text, WordType;
  }

  lemma FloatWritten(whole: string, part: string)
    requires |whole| > 0 && AllDigits(whole) && AllDigits(part)
    ensures IsFloat(whole + "." + part)
  {
    var f := whole + "." + part;
    assert f[..|whole|] == whole && f[|whole|] == '.' && f[|whole| + 1..] == part;
  }

  lemma PointSplits(whole: string, rest: string, part: string)
    requires |rest| > |part| && rest[0] == '.' && rest[1..][..|part|] == part
    ensures whole + rest == whole + "." + part + rest[1 + |part|..]
  {
    assert rest == "." + part + rest[1 + |part|..];
  }

  lemma WordSpelt(s: string)
    requires |s| > 0 && IsIdentChar(s[0]) && !IsDigit(s[0])
    ensures var w := Word(s); WellFormed(Token(WordType(w), w)) && s == Spell(Token(WordType(w), w)) + s[|w|..]
  {
    hide Text, WordType, IsKeyword, Spell;
    var w := Word(s);
    assert s == w + s[|w|..];
    assert |w| > 0 && w[0] == s[0];
    WordTypeText(w);
    KeywordSpelt(WordType(w), w);
  }

  lemma WordTypeText(w: string)
    ensures WordType(w) == IDENTIFIER || (IsKeyword(WordType(w)) && Text(WordType(w)) == w)
  {
    hide Text, WordType;
    WordOrKeyword(w);
    if IsKeyword(WordType(w)) { KeywordExact(w, WordType(w)); }
  }

  lemma WordOrKeyword(w: string)
    ensures WordType(w) == IDENTIFIER || IsKeyword(WordType(w))
  {
  }

  lemma KeywordSpelt(t: TokenType, w: string)
    requires t == IDENTIFIER || (IsKeyword(t) && Text(t) == w)
    ensures Spell(Token(t, w)) == w && (IsKeyword(t) ==> WellFormed(Token(t, w)))
  {
    hide Text;
  }

  lemma OperatorSpelt(s: string)
    requires |s| > 0 && OperatorAt(s).0 != WHITESPACE
    ensures var op := OperatorAt(s); WellFormed(Token(op.0, "")) && s == Spell(Token(op.0, "")) + s[op.1..]
  {
    hide Text, TwoCharOperator, OneCharOperator, WellFormed, Spell, IsOperator;
    if |s| > 1 && TwoCharOperator(s[0], s[1]) != WHITESPACE {
      TwoCharText(s[0], s[1]);
      assert s == [s[0], s[1]] + s[2..];
    } else {
      OneCharText(s[0]);
      assert s == [s[0]] + s[1..];
    }
    MarkSpelt(OperatorAt(s).0);
  }

  lemma MarkSpelt(t: TokenType)
    requires IsOperator(t)
    ensures WellFormed(Token(t, "")) && Spell(Token(t, "")) == Text(t)
  {
    hide Text;
  }

  /** Names, numbers and strings only come out of the scanner well-formed. */
  lemma {:induction false} ScannedWellFormed(s: string)
    ensures forall k :: 0 <= k < |ScanAll(s).tokens| && HasText(ScanAll(s).tokens[k].ty)
                        ==> WellFormed(ScanAll(s).tokens[k])
    decreases |s|
  {
    hide TokenAt, WellFormed, Spell;
    var r := NextToken(s);
    if r.Tok? && r.token.ty != EOS {
      var t := SkipGap(s);
      NotEmpty(t);
      if !r.token.ty.ERROR? { ScannedIsSpelt(t); }
      ScannedWellFormed(r.rest);
    }
  }

  lemma NotEmpty(s: string)
    requires TokenAt(s).Tok? && TokenAt(s).token.ty != EOS
    ensures |s| > 0 && |TokenAt(s).rest| < |s|
  {
  }
}
