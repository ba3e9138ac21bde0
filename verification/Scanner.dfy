/** The scanner itself: one character of lookahead over the source (src/parsing/scanner.cpp). */
module Scanning {
  import opened Options
  import opened Tokens
  import opened Decimal
  import opened Lexer

  /** One alternative of the unrolled keyword test. The first character was matched by the switch. */
  predicate GroupElem(str: string, input: string)
    requires 2 <= |str| <= 6
  {
    && |str| == |input| && str[1] == input[1]
    && (|str| < 3 || str[2] == input[2])
    && (|str| < 4 || str[3] == input[3])
    && (|str| < 5 || str[4] == input[4])
    && (|str| < 6 || str[5] == input[5])
  }

  function CheckIdentifierOrKeyword(input: string): TokenType {
    if |input| < 2 || |input| > 6 then IDENTIFIER
    else match input[0]
      case 'a' => if GroupElem("and", input) then AND else IDENTIFIER
      case 'e' => if GroupElem("else", input) then ELSE else IDENTIFIER
      case 'f' =>
        if GroupElem("false", input) then FALSE
        else if GroupElem("for", input) then FOR
        else if GroupElem("fun", input) then FUN else IDENTIFIER
      case 'i' => if GroupElem("if", input) then IF else if GroupElem("in", input) then IN else IDENTIFIER
      case 'm' => if GroupElem("map", input) then MAP else IDENTIFIER
      case 'n' => if GroupElem("nil", input) then NIL else IDENTIFIER
      case 'o' => if GroupElem("or", input) then OR else IDENTIFIER
      case 'r' => if GroupElem("return", input) then RETURN else IDENTIFIER
      case 's' => if GroupElem("struct", input) then STRUCT else IDENTIFIER
      case 't' => if GroupElem("true", input) then TRUE else IDENTIFIER
      case 'v' => if GroupElem("var", input) then VAR else IDENTIFIER
      case _ => IDENTIFIER
  }

  lemma GroupElemIsEquality(str: string, input: string)
    requires 2 <= |str| <= 6 && |input| > 0
    ensures str[0] == input[0] && GroupElem(str, input) <==> str == input
  {
  }

  /** The unrolled keyword test is plain comparison with the keywords. */
  lemma KeywordTestIsLookup(input: string)
    ensures CheckIdentifierOrKeyword(input) == WordType(input)
  {
    if 2 <= |input| <= 6 {
      hide GroupElem;
      GroupElemIsEquality("and", input); GroupElemIsEquality("else", input);
      GroupElemIsEquality("false", input); GroupElemIsEquality("for", input);
      GroupElemIsEquality("fun", input); GroupElemIsEquality("if", input);
      GroupElemIsEquality("in", input); GroupElemIsEquality("map", input);
      GroupElemIsEquality("nil", input); GroupElemIsEquality("or", input);
      GroupElemIsEquality("return", input); GroupElemIsEquality("struct", input);
      GroupElemIsEquality("true", input); GroupElemIsEquality("var", input);
    }
  }

  /** Words that start with an underscore or a capital are never keywords, as the scanner assumes. */
  lemma NotAKeyword(word: string)
    requires |word| > 0 && (word[0] == '_' || 'A' <= word[0] <= 'Z')
    ensures WordType(word) == IDENTIFIER
  {
  }

  class Scanner {
    const source: string
    // Where the next character is read from.
    var offset: nat
    // The lookahead character; None is the end of the input.
    var c0: Option<char>
    // The current token and the one Peek shows.
    var curr: Token
    var next: Token

    ghost predicate Valid()
      reads this
    {
      && offset <= |source|
      && (c0.None? ==> offset == |source|)
      && (c0.Some? ==> offset > 0 && c0.value == source[offset - 1])
    }

    /** The text not yet scanned, from the lookahead character on. */
    ghost function Rest(): (r: string)
      requires Valid()
      reads this
      ensures |r| == 0 <==> c0.None?
      ensures |r| > 0 ==> r[0] == c0.value
    {
      if c0.None? then "" else source[offset - 1..]
    }

    /** Positioned on the first token, unless the text has none where it starts. */
    constructor (source: string)
      requires NextToken(source).Tok?
      ensures Valid() && this.source == source
      ensures Tok(next, Rest()) == NextToken(source)
    {
      this.source := source;
      offset := 0;
      c0 := None;
      curr := Token(UNINITIALIZED, "");
      next := Token(UNINITIALIZED, "");
      new;
      hide NextToken;
      // Advance: bring the first character into the lookahead.
      if |source| > 0 {
        c0 := Some(source[0]);
        offset := 1;
      }
      assert Rest() == source;
      Scan();
    }

    method Next() returns (t: TokenType)
      requires Valid() && NextToken(Rest()).Tok?
      modifies this
      ensures Valid()
      ensures curr == old(next) && t == curr.ty
      ensures Tok(next, Rest()) == NextToken(old(Rest()))
    {
      hide NextToken;
      curr := next;
      Scan();
      return curr.ty;
    }

    function Peek(): TokenType
      reads this
    {
      next.ty
    }

    /** Reads one token into next, skipping white space and comments. */
    method Scan()
      requires Valid() && NextToken(Rest()).Tok?
      modifies this`offset, this`c0, this`next
      ensures Valid() && Tok(next, Rest()) == NextToken(old(Rest()))
    {
      hide TokenAt, SkipGap;
      next := next.(literal := "");
      ghost var whole := Rest();
      var ty := ScanOnce();
      while ty == WHITESPACE
        invariant Valid()
        invariant ty == WHITESPACE ==> next.literal == "" && NextToken(Rest()) == NextToken(whole)
        invariant ty != WHITESPACE ==> Tok(Token(ty, next.literal), Rest()) == NextToken(whole)
        decreases |Rest()|, if ty == WHITESPACE then 1 else 0
      {
        ty := ScanOnce();
      }
      next := next.(ty := ty);
    }

    /** One pass of the switch: a token, or WHITESPACE after skipping a run of blanks or a comment. */
    method ScanOnce() returns (ty: TokenType)
      requires Valid() && NextToken(Rest()).Tok? && next.literal == ""
      modifies this`offset, this`c0, this`next
      ensures Valid()
      ensures ty == WHITESPACE ==>
                next.literal == "" && |Rest()| < |old(Rest())| && SkipGap(Rest()) == SkipGap(old(Rest()))
      ensures ty != WHITESPACE ==> Tok(Token(ty, next.literal), Rest()) == NextToken(old(Rest()))
    {
      hide TokenAt, SkipGap, OperatorAt;
      ghost var text := Rest();
      NoGapHere(text);
      if c0.None? { return EOS; }
      var c := c0.value;
      if IsBlank(c) {
        SkipWhiteSpace();
        return WHITESPACE;
      }
      if c == '/' {
        ty := ScanSlash();
        return;
      }
      ty := ScanVisible(c);
    }

    /** The cases of the switch that neither skip nor start with a slash. */
    method ScanVisible(c: char) returns (ty: TokenType)
      requires Valid() && c0 == Some(c) && c != '/' && TokenAt(Rest()).Tok? && next.literal == ""
      modifies this`offset, this`c0, this`next
      ensures Valid() && Tok(Token(ty, next.literal), Rest()) == TokenAt(old(Rest()))
    {
      hide Word, WordType, NumberAt, StringAt, OperatorAt;
      if c == '@' {
        ty := ScanAt();
      } else if c == '"' {
        Advance();
        ty := ScanString();
      } else if IsDigit(c) {
        ty := ScanNumber();
      } else if IsIdentChar(c) {
        ty := ScanIdentifierOrKeyword();
      } else {
        ty := ScanOperator(c);
      }
    }

    method ScanAt() returns (ty: TokenType)
      requires Valid() && c0 == Some('@') && next.literal == ""
      modifies this`offset, this`c0, this`next
      ensures Valid() && Tok(Token(ty, next.literal), Rest()) == TokenAt(old(Rest()))
    {
      ghost var text := Rest();
      Advance();
      assert |Rest()| > 0 ==> Rest()[0] == text[1];
      if c0.Some? && IsIdentChar(c0.value) {
        var _ := ScanIdentifierOrKeyword();
        assert text[1..][|next.literal|..] == text[1 + |next.literal|..];
        return BUILTIN_IDENTIFIER;
      }
      assert OperatorAt(text) == (AT, 1);
      return AT;
    }

    method ScanSlash() returns (ty: TokenType)
      requires Valid() && c0 == Some('/') && next.literal == ""
      modifies this`offset, this`c0
      ensures Valid()
      ensures ty == WHITESPACE ==> |Rest()| < |old(Rest())| && SkipGap(Rest()) == SkipGap(old(Rest()))
      ensures ty != WHITESPACE ==> Tok(Token(ty, ""), Rest()) == NextToken(old(Rest()))
    {
      hide SkipGap, NextToken;
      ghost var text := Rest();
      SlashCases(text);
      Advance();
      assert |Rest()| > 0 ==> |text| > 1 && Rest()[0] == text[1] && Rest()[1..] == text[2..];
      var line := Matches('/');
      if line {
        SkipLineComment();
        return WHITESPACE;
      }
      var block := Matches('*');
      if block {
        SkipBlockComment();
        return WHITESPACE;
      }
      return SLASH;
    }

    /** The punctuation cases: one character, or two when the second fits. */
    method ScanOperator(c: char) returns (ty: TokenType)
      requires Valid() && c0 == Some(c) && OperatorAt(Rest()).0 != WHITESPACE
      modifies this`offset, this`c0
      ensures Valid() && ty == OperatorAt(old(Rest())).0 && Rest() == old(Rest())[OperatorAt(old(Rest())).1..]
    {
      hide OperatorAt, OneCharOperator;
      ghost var text := Rest();
      OperatorCases(text);
      Advance();
      assert |Rest()| > 0 ==> |text| > 1 && Rest()[0] == text[1] && Rest()[1..] == text[2..];
      if c == '!' {
        ty := Second('=', BANG_EQUAL, BANG);
      } else if c == '=' {
        ty := Second('=', EQUAL_EQUAL, EQUAL);
      } else if c == '-' {
        ty := Second('>', ARROW, MINUS);
      } else if c == '>' {
        ty := Second('=', GREATER_EQUAL, WHITESPACE);
        if ty == WHITESPACE { ty := Second('>', BIT_SHR, GREATER); }
      } else if c == '<' {
        ty := Second('=', LESS_EQUAL, WHITESPACE);
        if ty == WHITESPACE { ty := Second('<', BIT_SHL, LESS); }
      } else {
        ty := OneCharOperator(c);
      }
    }

    /** The longer operator if its second character comes next, else the shorter one. */
    method Second(expected: char, long: TokenType, short: TokenType) returns (ty: TokenType)
      requires Valid() && long != short
      modifies this`offset, this`c0
      ensures Valid()
      ensures ty == if |old(Rest())| > 0 && old(Rest())[0] == expected then long else short
      ensures Rest() == if ty == long then old(Rest())[1..] else old(Rest())
    {
      var matched := Matches(expected);
      return if matched then long else short;
    }

    method Advance()
      requires Valid()
      modifies this`offset, this`c0
      ensures Valid() && Rest() == if |old(Rest())| == 0 then "" else old(Rest())[1..]
    {
      if offset == |source| {
        c0 := None;
      } else {
        c0 := Some(source[offset]);
        offset := offset + 1;
      }
    }

    method Matches(expected: char) returns (matched: bool)
      requires Valid()
      modifies this`offset, this`c0
      ensures Valid() && matched == (|old(Rest())| > 0 && old(Rest())[0] == expected)
      ensures Rest() == if matched then old(Rest())[1..] else old(Rest())
    {
      if c0 != Some(expected) { return false; }
      Advance();
      return true;
    }

    method AdvanceUntil(stop: char)
      requires Valid()
      modifies this`offset, this`c0
      ensures Valid() && Rest() == DropUntil(old(Rest()), stop)
    {
      while c0.Some? && c0.value != stop
        invariant Valid() && DropUntil(Rest(), stop) == DropUntil(old(Rest()), stop)
        decreases |Rest()|
      {
        Advance();
      }
    }

    method SkipWhiteSpace()
      requires Valid()
      modifies this`offset, this`c0
      ensures Valid() && Rest() == SkipBlanks(old(Rest())) && SkipGap(Rest()) == SkipGap(old(Rest()))
      ensures |Rest()| <= |old(Rest())| && (|old(Rest())| > 0 && IsBlank(old(Rest())[0]) ==> |Rest()| < |old(Rest())|)
    {
      while c0.Some? && IsBlank(c0.value)
        invariant Valid() && SkipGap(Rest()) == SkipGap(old(Rest())) && |Rest()| <= |old(Rest())|
        invariant SkipBlanks(Rest()) == SkipBlanks(old(Rest()))
        invariant Rest() == old(Rest()) || |Rest()| < |old(Rest())|
        decreases |Rest()|
      {
        Advance();
      }
    }

    method SkipLineComment()
      requires Valid()
      modifies this`offset, this`c0
      ensures Valid() && Rest() == AfterLine(old(Rest()))
    {
      AdvanceUntil('\n');
    }

    method SkipBlockComment()
      requires Valid()
      modifies this`offset, this`c0
      ensures Valid() && Rest() == AfterBlock(old(Rest()))
    {
      ghost var text := Rest();
      while c0.Some?
        invariant Valid() && AfterBlock(Rest()) == AfterBlock(text)
        decreases |Rest()|
      {
        ghost var here := Rest();
        BlockFromStar(here);
        AdvanceUntil('*');
        while c0 == Some('*')
          invariant Valid() && AfterBlock(Rest()) == AfterBlock(text)
          invariant |Rest()| <= |here| && (|Rest()| < |here| || c0 == Some('*'))
          decreases |Rest()|
        {
          ghost var star := Rest();
          Advance();
          if c0 == Some('/') {
            assert star[1] == '/' && star[1..][1..] == star[2..];
            Advance();
            return;
          }
        }
      }
    }

    method ScanIdentifierOrKeyword() returns (ty: TokenType)
      requires Valid() && next.literal == "" && c0.Some? && IsIdentChar(c0.value)
      modifies this`offset, this`c0, this`next
      ensures Valid() && next.literal == Word(old(Rest())) && Rest() == old(Rest())[|next.literal|..]
      ensures ty == WordType(next.literal)
    {
      hide Word, WordType;
      ghost var text := Rest();
      var identifierChar0 := c0.value;
      ghost var n := 0;
      while c0.Some? && IsIdentChar(c0.value)
        invariant Valid() && 0 <= n <= |text| && Rest() == text[n..] && |next.literal| == n
        invariant next.literal + Word(Rest()) == Word(text)
        decreases |text| - n
      {
        ghost var read := next.literal;
        next := next.(literal := next.literal + [c0.value]);
        Advance();
        WordStep(read, text, n);
        n := n + 1;
      }
      WordStep(next.literal, text, n);
      if identifierChar0 == '_' || 'A' <= identifierChar0 <= 'Z' {
        NotAKeyword(next.literal);
        return IDENTIFIER;
      }
      KeywordTestIsLookup(next.literal);
      return CheckIdentifierOrKeyword(next.literal);
    }

    method ScanDigits()
      requires Valid()
      modifies this`offset, this`c0, this`next
      ensures Valid() && next == old(next).(literal := old(next.literal) + Digits(old(Rest())))
      ensures Rest() == old(Rest())[|Digits(old(Rest()))|..]
    {
      hide Digits;
      ghost var text := Rest();
      ghost var before := next.literal;
      ghost var n := 0;
      while c0.Some? && IsDigit(c0.value)
        invariant Valid() && 0 <= n <= |text| && Rest() == text[n..] && |next.literal| == |before| + n
        invariant next.ty == old(next.ty) && next.literal + Digits(Rest()) == before + Digits(text)
        decreases |text| - n
      {
        ghost var read := next.literal;
        next := next.(literal := next.literal + [c0.value]);
        Advance();
        DigitsStep(read, text, n);
        n := n + 1;
      }
      DigitsStep(next.literal, text, n);
    }

    method ScanNumber() returns (ty: TokenType)
      requires Valid() && next.literal == "" && c0.Some? && IsDigit(c0.value)
      modifies this`offset, this`c0, this`next
      ensures Valid() && Tok(Token(ty, next.literal), Rest()) == NumberAt(old(Rest()))
    {
      ghost var text, whole := Rest(), Digits(Rest());
      ty := INTEGER;
      ScanDigits();
      assert next.literal == whole;
      if c0 == Some('.') {
        ty := FLOAT;
        next := next.(literal := next.literal + ".");
        Advance();
        assert text[|whole|..][1..][|Digits(text[|whole|..][1..])|..] == text[|whole|..][1 + |Digits(text[|whole|..][1..])|..];
        ScanDigits();
      }
    }

    method ScanString() returns (ty: TokenType)
      requires Valid() && next.literal == ""
      modifies this`offset, this`c0, this`next
      ensures Valid() && Tok(Token(ty, next.literal), Rest()) == StringAt(old(Rest()), "")
    {
      ghost var text := Rest();
      while true
        invariant Valid() && StringAt(Rest(), next.literal) == StringAt(text, "")
        decreases |Rest()|
      {
        if c0.None? {
          next := next.(literal := "Unterminated string");
          return ERROR;
        }
        ghost var here := Rest();
        var escape := c0.value == '\\';
        next := next.(literal := next.literal + [c0.value]);
        Advance();
        if c0 == Some('"') && !escape {
          assert here[1] == '"' && here[1..][1..] == here[2..];
          Advance();
          return STRING;
        }
      }
    }
  }

  /** Up to the first star nothing closes a block comment. */
  lemma {:induction false} BlockFromStar(s: string)
    ensures AfterBlock(DropUntil(s, '*')) == AfterBlock(s)
  {
    if |s| > 0 && s[0] != '*' {
      BlockFromStar(s[1..]);
    }
  }

  lemma NoGapHere(text: string)
    ensures |text| == 0 ==> NextToken(text) == Tok(Token(EOS, ""), text)
    ensures |text| > 0 && !IsBlank(text[0]) && text[0] != '/' ==> SkipGap(text) == text
  {
  }

  lemma SlashCases(text: string)
    requires |text| > 0 && text[0] == '/'
    ensures |text| > 1 && text[1] == '/' ==> SkipGap(text) == SkipGap(AfterLine(text[2..]))
    ensures |text| > 1 && text[1] == '*' ==> SkipGap(text) == SkipGap(AfterBlock(text[2..]))
    ensures |text| == 1 || (text[1] != '/' && text[1] != '*') ==> NextToken(text) == Tok(Token(SLASH, ""), text[1..])
  {
    hide TokenAt, AfterLine, AfterBlock;
    LoneSlash(text);
  }

  lemma LoneSlash(text: string)
    requires |text| > 0 && text[0] == '/'
    ensures TokenAt(text) == Tok(Token(SLASH, ""), text[1..])
  {
    hide TwoCharOperator, OneCharOperator;
    assert OperatorAt(text) == (SLASH, 1) by {
      OperatorCases(text);
      SlashOperator();
    }
    hide OperatorAt;
  }

  lemma SlashOperator()
    ensures OneCharOperator('/') == SLASH
  {
  }

  /** Reading one more character of a word keeps what is read plus what is left. */
  lemma {:induction false} WordStep(read: string, text: string, n: nat)
    requires n <= |text|
    ensures n < |text| && IsIdentChar(text[n]) ==> text[n..][1..] == text[n + 1..]
    ensures n < |text| && IsIdentChar(text[n]) ==> read + Word(text[n..]) == read + [text[n]] + Word(text[n + 1..])
    ensures n == |text| || !IsIdentChar(text[n]) ==> read + Word(text[n..]) == read
  {
    if n < |text| {
      assert text[n..][1..] == text[n + 1..];
    }
  }

  lemma {:induction false} DigitsStep(read: string, text: string, n: nat)
    requires n <= |text|
    ensures n < |text| && IsDigit(text[n]) ==> text[n..][1..] == text[n + 1..]
    ensures n < |text| && IsDigit(text[n]) ==> read + Digits(text[n..]) == read + [text[n]] + Digits(text[n + 1..])
    ensures n == |text| || !IsDigit(text[n]) ==> read + Digits(text[n..]) == read
  {
    if n < |text| {
      assert text[n..][1..] == text[n + 1..];
    }
  }

  /** The operator found for each first character that can begin two of them. */
  lemma OperatorCases(text: string)
    requires |text| > 0
    ensures text[0] == '!' ==> OperatorAt(text) == if |text| > 1 && text[1] == '=' then (BANG_EQUAL, 2) else (BANG, 1)
    ensures text[0] == '=' ==> OperatorAt(text) == if |text| > 1 && text[1] == '=' then (EQUAL_EQUAL, 2) else (EQUAL, 1)
    ensures text[0] == '-' ==> OperatorAt(text) == if |text| > 1 && text[1] == '>' then (ARROW, 2) else (MINUS, 1)
    ensures text[0] == '>' ==>
              OperatorAt(text) == if |text| > 1 && text[1] == '=' then (GREATER_EQUAL, 2)
                                  else if |text| > 1 && text[1] == '>' then (BIT_SHR, 2) else (GREATER, 1)
    ensures text[0] == '<' ==>
              OperatorAt(text) == if |text| > 1 && text[1] == '=' then (LESS_EQUAL, 2)
                                  else if |text| > 1 && text[1] == '<' then (BIT_SHL, 2) else (LESS, 1)
    ensures text[0] != '!' && text[0] != '=' && text[0] != '-' && text[0] != '>' && text[0] != '<' ==>
              OperatorAt(text) == (OneCharOperator(text[0]), 1)
  {
  }
}
