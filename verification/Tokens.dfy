/** Tokens, their texts and precedences (src/include/parsing/token.h). */
module Tokens {
  datatype TokenType =
    | LEFT_PAREN | RIGHT_PAREN | LEFT_BRACE | RIGHT_BRACE | LEFT_BRACKET | RIGHT_BRACKET
    | ARROW | BANG | BIT_NOT | COLON | DOT | SEMI | AT
    | EQUAL
    | COMMA | OR | AND | BIT_OR | BIT_XOR | AMPERSAND | BIT_SHL | BIT_SHR
    | PLUS | MINUS | STAR | SLASH | PERCENT
    | BANG_EQUAL | EQUAL_EQUAL | GREATER | GREATER_EQUAL | LESS | LESS_EQUAL
    | IDENTIFIER | BUILTIN_IDENTIFIER | INTEGER | FLOAT | STRING
    | ELSE | FALSE | FOR | FUN | IF | IN | MAP | NIL | RETURN | STRUCT | TRUE | VAR
    | UNINITIALIZED | WHITESPACE | ERROR | EOS

  function Precedence(t: TokenType): nat {
    match t
    case COMMA => 1
    case OR => 3
    case AND => 4
    case BIT_OR => 5
    case BIT_XOR => 6
    case AMPERSAND => 7
    case BANG_EQUAL | EQUAL_EQUAL => 8
    case GREATER | GREATER_EQUAL | LESS | LESS_EQUAL => 9
    case BIT_SHL | BIT_SHR => 10
    case PLUS | MINUS => 11
    case STAR | SLASH | PERCENT => 12
    case _ => 0
  }

  const LOWEST_PRECEDENCE := 0

  predicate IsCompareOp(t: TokenType) {
    t.BANG_EQUAL? || t.EQUAL_EQUAL? || t.GREATER? || t.GREATER_EQUAL? || t.LESS? || t.LESS_EQUAL?
  }

  predicate IsEqualityOp(t: TokenType) { t.BANG_EQUAL? || t.EQUAL_EQUAL? }

  predicate IsCallOrMemberOrIndex(t: TokenType) { t == LEFT_PAREN || t == DOT || t == LEFT_BRACKET }

  /** The prefix operators ParseUnaryOpExpression accepts. */
  predicate IsUnaryOp(t: TokenType) {
    t.AMPERSAND? || t.BANG? || t.BIT_NOT? || t.BIT_XOR? || t.MINUS? || t.PLUS? || t.STAR?
  }

  /** The operators a binary expression can carry: they bind tighter than LOWEST_PRECEDENCE + 1. */
  predicate IsInfix(t: TokenType) { Precedence(t) > LOWEST_PRECEDENCE + 1 }

  /** Token::GetString for the tokens whose text is fixed. */
  function Text(t: TokenType): string {
    match t
    case LEFT_PAREN => "(" case RIGHT_PAREN => ")" case LEFT_BRACE => "{" case RIGHT_BRACE => "}"
    case LEFT_BRACKET => "[" case RIGHT_BRACKET => "]" case ARROW => "->" case BANG => "!"
    case BIT_NOT => "~" case COLON => ":" case DOT => "." case SEMI => ";" case AT => "@"
    case EQUAL => "=" case COMMA => "," case OR => "or" case AND => "and" case BIT_OR => "|"
    case BIT_XOR => "^" case AMPERSAND => "&" case BIT_SHL => "<<" case BIT_SHR => ">>"
    case PLUS => "+" case MINUS => "-" case STAR => "*" case SLASH => "/" case PERCENT => "%"
    case BANG_EQUAL => "!=" case EQUAL_EQUAL => "==" case GREATER => ">" case GREATER_EQUAL => ">="
    case LESS => "<" case LESS_EQUAL => "<="
    case ELSE => "else" case FALSE => "false" case FOR => "for" case FUN => "fun" case IF => "if"
    case IN => "in" case MAP => "map" case NIL => "nil" case RETURN => "return"
    case STRUCT => "struct" case TRUE => "true" case VAR => "var"
    case IDENTIFIER => "[ident]" case BUILTIN_IDENTIFIER => "@[ident]" case INTEGER => "num"
    case FLOAT => "float" case STRING => "str" case UNINITIALIZED => "" case WHITESPACE => "" case ERROR => "error"
    case EOS => "eos"
  }

  /** A scanned token: its type and, for identifiers, keywords and literals, its characters. */
  datatype Token = Token(ty: TokenType, literal: string)
}
