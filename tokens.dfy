/** Values exchanged between the tokenizer and the parser: source positions,
    error descriptions and the token kinds of `src/lexer.rs`, plus the
    character classes the tokenizer tests. */
module Tokens {

  datatype Option<T> = None | Some(value: T)

  /** Position of a token. `lineNumber` and `charPosition` start at 1;
      `charPosition` is the column of the token's end, `start` its absolute
      0-based offset and `length` its width in characters. */
  datatype TokenInfo = TokenInfo(lineNumber: nat, charPosition: nat, start: nat, length: nat)

  /** The error messages of both stages, by kind; `Text` renders each as the
      exact string the source builds. */
  datatype Message =
    | BadHexDigit(c: char)
    | UnsupportedEscape(c: char)
    | MultiLineString
    | UnrecognizedToken
    | UnexpectedCharacter(c: char)
    | EmptySource
    | ValueRequired(key: string)
    | ColonExpected(key: string)
    | UnexpectedCommaInObject
    | PairAfterComma
    | PairExpected
    | CommaOrCurlyExpected
    | PairOrCurlyExpected
    | UnexpectedCommaInArray
    | ValueAfterComma
    | CommaOrBracketExpected
    | ValueOrBracketExpected
    | EndOfStream
    | DigitsAfterMinus
    | FractionDigitsExpected
    | ExponentDigitsExpected

  function Text(m: Message): string {
    match m
    case BadHexDigit(c) =>
      "The character '" + [c] + "' is not valid in this context. Only hexadecimal digits (0-9, a-f, A-F) may follow \\u"
    // the source writes `'\'` inside a Rust string literal, where `\'` is an
    // escaped quote: no backslash reaches the message
    case UnsupportedEscape(c) =>
      "Unsupported escaped character '" + [c] + "'. Only 'b', 'f', 'n', 'r', 't', 'u<4-digit hex>', '', or '\"' are allowed"
    case MultiLineString => "Multi-line strings are not allowed"
    case UnrecognizedToken => "Unrecognized token"
    case UnexpectedCharacter(c) => "Encountered an unexpected character '" + [c] + "'"
    case EmptySource => "Source cannot be empty"
    case ValueRequired(key) => "A value is required after `\"" + key + "\": `"
    case ColonExpected(key) => "Expected ':' after the key '" + key + "'"
    case UnexpectedCommaInObject => "Syntax error. Encountered unexpected ',' in object"
    case PairAfterComma => "Expected another key-value pair after comma, but found a '}'"
    case PairExpected => "Expected another key-value pair"
    case CommaOrCurlyExpected => "Expected comma or closing curly brace"
    case PairOrCurlyExpected => "Expected key-value pair or closing curly brace"
    case UnexpectedCommaInArray => "Syntax error. Encountered unexpected ',' in array"
    case ValueAfterComma => "Expected another value after comma, but found a ']'"
    case CommaOrBracketExpected => "Expected comma or closing bracket"
    case ValueOrBracketExpected => "Expected value or closing bracket"
    case EndOfStream => "Encountered end of stream, but more tokens expected"
    // also used, as in the source, when an exponent has no digits
    case DigitsAfterMinus => "Syntax error. Expected digits after '-'"
    case FractionDigitsExpected => "Syntax error. Expected fractional digits after '.'"
    case ExponentDigitsExpected => "Syntax error. Expected digits after exponent character"
  }

  datatype ErrorInfo = ErrorInfo(message: Message, fragment: Option<string>)

  datatype Token =
    | FalseLiteral
    | TrueLiteral
    | NullLiteral
    | StringLiteral(text: string)   // raw text, quotes and escapes included
    | Integer(digits: string)       // raw digit run, no sign
    | MinusSign
    | PlusSign
    | Exponent
    | Dot
    | LeftCurly
    | LeftBracket
    | RightCurly
    | RightBracket
    | Comma
    | Colon
    | Error(err: ErrorInfo)

  type TokenPair = (Token, TokenInfo)

  predicate IsKeyword(t: Token) {
    t.FalseLiteral? || t.TrueLiteral? || t.NullLiteral?
  }

  /** The token kinds of a sequence of token pairs, positions dropped. */
  function Kinds(ts: seq<TokenPair>): (r: seq<Token>)
    ensures |r| == |ts|
    ensures forall i :: 0 <= i < |ts| ==> r[i] == ts[i].0
  {
    seq(|ts|, i requires 0 <= i < |ts| => ts[i].0)
  }

  predicate IsCarriageReturn(c: char) { c == '\r' }

  predicate IsLinefeed(c: char) { c == '\n' }

  predicate IsDoubleQuote(c: char) { c == '"' }

  predicate IsBackslash(c: char) { c == '\\' }

  /** The ten ASCII decimal digits, listed one by one as the source does. */
  predicate IsDigit(c: char)
    ensures IsDigit(c) <==> '0' <= c <= '9'
  {
    c == '0' || c == '1' || c == '2' || c == '3' || c == '4' ||
    c == '5' || c == '6' || c == '7' || c == '8' || c == '9'
  }

  /** Hexadecimal digits in either case; a `\u` escape takes four of them. */
  predicate IsHexDigit(c: char)
    ensures IsHexDigit(c) <==> IsDigit(c) || 'a' <= c <= 'f' || 'A' <= c <= 'F'
  {
    c in "abcdefABCDEF0123456789"
  }

  /** Characters accepted after a backslash, other than `u`. */
  predicate IsSimpleEscape(c: char) {
    c in "\"b/\\fnrt"
  }
}
