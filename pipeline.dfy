/** The library's entry point: the chunks of text are lexed into tokens and
    the tokens are parsed into tags. The two stages run as background
    threads joined by channels; here they are composed as functions. */
module Pipeline {
  import opened Tokens
  import LexerSpec
  import LexerProps
  import ParserSpec
  import ParserProps
  import Lexer
  import Parser

  /** Every string token the lexer sends carries both of its quotes, which
      is all the parser asks of its input. */
  lemma LexedWellQuoted(input: string)
    ensures ParserSpec.WellQuoted(LexerSpec.LexAll(input))
  {
    var ts := LexerSpec.LexAll(input);
    LexerProps.StringTokensQuoted(input);
    forall i | 0 <= i < |ts|
      ensures ParserSpec.Strippable(ts[i].0)
    {
      if ts[i].0.StringLiteral? {
        assert |ts[i].0.text| >= 2;
      }
    }
  }

  /** The tags the library sends for the logical input. Once an error tag
      is sent, only error tags follow, and an aborted run ends on one. */
  function ParseText(input: string): (tags: seq<ParserSpec.Tag>)
    ensures ParserSpec.Aborted(tags) || ParserSpec.Clean(tags)
  {
    LexedWellQuoted(input);
    var ts := LexerSpec.LexAll(input);
    ParserProps.ErrorsAreFinal(ts);
    ParserSpec.Parse(ts)
  }

  /** Lexing the chunks, then parsing the tokens, sends the tags of the
      chunks read as one text: where the input is cut makes no difference. */
  method Parse(chunks: seq<string>) returns (tags: seq<ParserSpec.Tag>)
    ensures tags == ParseText(LexerSpec.Concat(chunks))
  {
    var tokens := Lexer.Lex(chunks);
    LexedWellQuoted(LexerSpec.Concat(chunks));
    tags := Parser.ParseTokens(tokens);
  }

  /** An empty source yields exactly one tag: the "Source cannot be empty"
      error at line 1, column 1. */
  lemma EmptyText()
    ensures ParseText([]) == [ParserSpec.Tag.Error(ErrorInfo(EmptySource, None), TokenInfo(1, 1, 0, 0))]
  {
    LexerProps.EmptyInput();
  }

  /** Any way of cutting the empty text into chunks, including sending no
      chunk at all, yields that one tag. */
  lemma EmptyChunks(chunks: seq<string>)
    requires forall i :: 0 <= i < |chunks| ==> chunks[i] == []
    ensures ParseText(LexerSpec.Concat(chunks)) == [ParserSpec.Tag.Error(ErrorInfo(EmptySource, None), TokenInfo(1, 1, 0, 0))]
  {
    EmptyConcat(chunks);
    EmptyText();
  }

  lemma {:induction false} EmptyConcat(chunks: seq<string>)
    requires forall i :: 0 <= i < |chunks| ==> chunks[i] == []
    ensures LexerSpec.Concat(chunks) == []
    decreases |chunks|
  {
    if |chunks| > 0 {
      EmptyConcat(chunks[..|chunks| - 1]);
    }
  }
}
