/** The tokenizer of `src/lexer.rs` as the source runs it: the locals of
    `lex` are fields of a `Lexer` object, updated one character at a time,
    and the token channel is the field `output`, appended to. Each method is
    proved to perform exactly the transition of the pure machine in
    lexer_spec.dfy. */
module Lexer {
  import opened Tokens
  import S = LexerSpec

  class Lexer {
    var expectedToMatch: string
    var currentToken: Option<Token>
    var lineNumber: nat
    var charPosition: nat
    var start: nat
    var length: nat
    var expectPossibleLinefeed: bool
    var expectEscapedChar: bool
    var expectedHexDigits: nat
    /** `lex` has returned; no further character is read. */
    var halted: bool
    /** Everything sent on the token channel so far. */
    var output: seq<TokenPair>

    function Info(): TokenInfo
      reads this
    {
      TokenInfo(lineNumber, charPosition, start, length)
    }

    function State(): S.LexState
      reads this
    {
      S.LexState(currentToken, Info(), expectedToMatch, expectPossibleLinefeed,
                 expectEscapedChar, expectedHexDigits, halted)
    }

    ghost predicate Valid()
      reads this
    {
      S.Inv(State())
    }

    /** The initial values of lexer.rs:77-88. */
    constructor ()
      ensures Valid() && State() == S.Init && output == []
    {
      expectedToMatch := "";
      currentToken := None;
      lineNumber, charPosition, start, length := 1, 1, 0, 0;
      expectPossibleLinefeed := false;
      expectEscapedChar := false;
      expectedHexDigits := 0;
      halted := false;
      output := [];
    }

    /** Sends an Error token at the current position; `lex` then returns. */
    method Fail(message: Message, fragment: Option<string>)
      modifies this`output, this`halted
      ensures halted
      ensures output == old(output) + [(Error(ErrorInfo(message, fragment)), Info())]
    {
      output := output + [(Error(ErrorInfo(message, fragment)), Info())];
      halted := true;
    }

    /** Reads one character (the body of the loop at lexer.rs:90). */
    method Step(c: char)
      requires Valid()
      modifies this
      ensures Valid()
      ensures State() == S.Step(old(State()), c).state
      ensures output == old(output) + S.Step(old(State()), c).tokens
    {
      if halted {
        return;
      }
      if currentToken.Some? && currentToken.value.StringLiteral? {
        var text := currentToken.value.text;
        if expectedHexDigits > 0 || expectEscapedChar {
          StepEscape(text, c);
        } else {
          StepString(text, c);
        }
      } else if currentToken.Some? && currentToken.value.Integer? {
        StepInteger(currentToken.value.digits, c);
      } else {
        StepFresh(c);
      }
    }

    method StepEscape(text: string, c: char)
      requires Valid() && !halted
      requires currentToken == Some(StringLiteral(text))
      requires expectedHexDigits > 0 || expectEscapedChar
      modifies this
      ensures State() == S.InEscape(old(State()), text, c).state
      ensures output == old(output) + S.InEscape(old(State()), text, c).tokens
    {
      if expectedHexDigits > 0 {
        StepHexDigit(text, c);
      } else {
        StepEscapedChar(text, c);
      }
    }

    method StepHexDigit(text: string, c: char)
      requires Valid() && !halted
      requires currentToken == Some(StringLiteral(text))
      requires expectedHexDigits > 0
      modifies this
      ensures State() == S.InEscape(old(State()), text, c).state
      ensures output == old(output) + S.InEscape(old(State()), text, c).tokens
    {
      if IsHexDigit(c) {
        expectedHexDigits := expectedHexDigits - 1;
        currentToken := Some(StringLiteral(text + [c]));
        length := length + 1;
        charPosition := charPosition + 1;
      } else {
        Fail(BadHexDigit(c), None);
      }
    }

    method StepEscapedChar(text: string, c: char)
      requires Valid() && !halted
      requires currentToken == Some(StringLiteral(text))
      requires expectedHexDigits == 0 && expectEscapedChar
      modifies this
      ensures State() == S.InEscape(old(State()), text, c).state
      ensures output == old(output) + S.InEscape(old(State()), text, c).tokens
    {
      expectEscapedChar := false;
      if IsSimpleEscape(c) {
        currentToken := Some(StringLiteral(text + [c]));
        length := length + 1;
        charPosition := charPosition + 1;
      } else if c == 'u' {
        currentToken := Some(StringLiteral(text + [c]));
        length := length + 1;
        charPosition := charPosition + 1;
        expectedHexDigits := 4;
      } else {
        Fail(UnsupportedEscape(c), None);
      }
    }

    method StepString(text: string, c: char)
      requires Valid() && !halted
      requires currentToken == Some(StringLiteral(text))
      requires expectedHexDigits == 0 && !expectEscapedChar
      modifies this
      ensures State() == S.InString(old(State()), text, c).state
      ensures output == old(output) + S.InString(old(State()), text, c).tokens
    {
      if IsDoubleQuote(c) {
        length := length + 1;
        charPosition := charPosition + 1;
        output := output + [(StringLiteral(text + [c]), Info())];
        currentToken := None;
        start := start + length;
      } else if IsLinefeed(c) || IsCarriageReturn(c) {
        Fail(MultiLineString, None);
      } else if IsBackslash(c) {
        expectEscapedChar := true;
        currentToken := Some(StringLiteral(text + [c]));
        length := length + 1;
        charPosition := charPosition + 1;
      } else {
        currentToken := Some(StringLiteral(text + [c]));
        length := length + 1;
        charPosition := charPosition + 1;
      }
    }

    method StepInteger(digits: string, c: char)
      requires Valid() && !halted
      requires currentToken == Some(Integer(digits))
      modifies this
      ensures State() == S.InInteger(old(State()), digits, c).state
      ensures output == old(output) + S.InInteger(old(State()), digits, c).tokens
    {
      if IsDigit(c) {
        currentToken := Some(Integer(digits + [c]));
        length := length + 1;
        charPosition := charPosition + 1;
        return;
      }
      ghost var before := State();
      FlushInteger(digits);
      ghost var flushed := State();
      ghost var sent := [(Integer(digits), before.info)];
      assert S.InInteger(before, digits, c) == S.Emit(S.Fresh(flushed, c).state, sent + S.Fresh(flushed, c).tokens);
      StepFresh(c);
      S.AppendAssoc(old(output), sent, S.Fresh(flushed, c).tokens);
    }

    /** Sends the open integer; nothing is open afterwards (lexer.rs:181-186). */
    method FlushInteger(digits: string)
      requires Valid() && !halted
      requires currentToken == Some(Integer(digits))
      modifies this
      ensures Valid() && !halted
      ensures State() == old(State()).(current := None,
                                       info := old(Info()).(start := old(start) + old(length), length := 0))
      ensures output == old(output) + [(Integer(digits), old(Info()))]
    {
      output := output + [(Integer(digits), Info())];
      currentToken := None;
      start := start + length;
      length := 0;
    }

    method StepFresh(c: char)
      requires Valid() && !halted
      requires currentToken.None? || IsKeyword(currentToken.value)
      modifies this
      ensures State() == S.Fresh(old(State()), c).state
      ensures output == old(output) + S.Fresh(old(State()), c).tokens
    {
      if expectPossibleLinefeed {
        if IsLinefeed(c) {
          // the second half of a CRLF; the source panics here unless the
          // column is 1, which the invariant guarantees
          assert charPosition == 1;
          start := start + 1;
          return;
        }
        expectPossibleLinefeed := false;
      }
      if |expectedToMatch| > 0 {
        if expectedToMatch[0] == c {
          if |expectedToMatch| == 1 {
            expectedToMatch := "";
            output := output + [(currentToken.value, Info())];
            currentToken := None;
            start := start + length;
          } else {
            expectedToMatch := expectedToMatch[1..];
          }
        } else {
          // the source's `temp_string` is never appended to
          Fail(UnrecognizedToken, Some(""));
          return;
        }
        charPosition := charPosition + 1;
        return;
      }
      if c == 'f' {
        expectedToMatch := "alse";
        currentToken := Some(FalseLiteral);
        length := 5;
        charPosition := charPosition + 1;
      } else if c == 't' {
        expectedToMatch := "rue";
        currentToken := Some(TrueLiteral);
        length := 4;
        charPosition := charPosition + 1;
      } else if c == 'n' {
        expectedToMatch := "ull";
        currentToken := Some(NullLiteral);
        length := 4;
        charPosition := charPosition + 1;
      } else {
        StepSimple(c);
      }
    }

    method StepSimple(c: char)
      requires Valid() && !halted
      requires currentToken.None? && !expectPossibleLinefeed
      modifies this
      ensures State() == S.Simple(old(State()), c).state
      ensures output == old(output) + S.Simple(old(State()), c).tokens
    {
      if c == '"' {
        currentToken := Some(StringLiteral("\""));
        charPosition := charPosition + 1;
        length := 1;
      } else if c == '\r' {
        expectPossibleLinefeed := true;
        lineNumber := lineNumber + 1;
        charPosition := 1;
        start := start + 1;
      } else if c == '\n' {
        lineNumber := lineNumber + 1;
        charPosition := 1;
        start := start + 1;
      } else if c == ' ' || c == '\t' {
        charPosition := charPosition + 1;
        start := start + 1;
      } else {
        var matched := S.SimpleToken(c);
        if matched.Some? {
          currentToken := None;
          length := 1;
          charPosition := charPosition + 1;
          output := output + [(matched.value, Info())];
          start := start + 1;
          length := 0;
        } else if IsDigit(c) {
          charPosition := charPosition + 1;
          length := length + 1;
          currentToken := Some(Integer([c]));
        } else {
          Fail(UnexpectedCharacter(c), None);
        }
      }
    }

    /** Reads one chunk, character by character, until it is exhausted or
        `lex` has returned (the inner loop of lexer.rs:89-333). */
    method Feed(chunk: string)
      requires Valid()
      modifies this
      ensures Valid()
      ensures State() == S.Run(old(State()), chunk).state
      ensures output == old(output) + S.Run(old(State()), chunk).tokens
    {
      ghost var s0 := State();
      var j := 0;
      while j < |chunk| && !halted
        invariant 0 <= j <= |chunk|
        invariant Valid()
        invariant State() == S.Run(s0, chunk[..j]).state
        invariant output == old(output) + S.Run(s0, chunk[..j]).tokens
      {
        S.RunSnoc(s0, chunk[..j], chunk[j]);
        assert chunk[..j + 1] == chunk[..j] + [chunk[j]];
        ghost var before := State();
        Step(chunk[j]);
        S.AppendAssoc(old(output), S.Run(s0, chunk[..j]).tokens, S.Step(before, chunk[j]).tokens);
        j := j + 1;
      }
      assert [] + chunk == chunk;
      assert [] + chunk[..j] == chunk[..j];
      S.SkipRest(s0, [], chunk, j);
    }

    /** The input has ended (lexer.rs:335-358): an open integer is sent and
        closed, an untouched position reports the empty source, and the
        lexer stops; nothing else about its state changes. */
    method Finish()
      requires Valid()
      modifies this`output, this`halted, this`currentToken
      ensures Valid() && halted
      ensures State() == old(State()).(halted := true,
        current := if !old(halted) && old(currentToken).Some? && old(currentToken).value.Integer? then None else old(currentToken))
      ensures output == old(output) + S.Finish(old(State()))
    {
      if halted {
        return;
      }
      if currentToken.Some? && currentToken.value.Integer? {
        output := output + [(currentToken.value, Info())];
        currentToken := None;
      } else if lineNumber == 1 && charPosition == 1 {
        output := output + [(Error(ErrorInfo(EmptySource, None)), Info())];
      }
      halted := true;
    }
  }

  /** `lex` over a sequence of chunks, with the token channel collected into a
      sequence. The result depends only on the concatenated input. */
  method Lex(chunks: seq<string>) returns (tokens: seq<TokenPair>)
    ensures tokens == S.LexAll(S.Concat(chunks))
  {
    var lexer := new Lexer();
    var i := 0;
    while i < |chunks| && !lexer.halted
      invariant 0 <= i <= |chunks|
      invariant lexer.Valid()
      invariant lexer.State() == S.Run(S.Init, S.Concat(chunks[..i])).state
      invariant lexer.output == S.Run(S.Init, S.Concat(chunks[..i])).tokens
    {
      S.RunAppend(S.Init, S.Concat(chunks[..i]), chunks[i]);
      assert chunks[..i + 1][..i] == chunks[..i];
      lexer.Feed(chunks[i]);
      i := i + 1;
    }
    S.ConcatSplit(chunks, i);
    if i == |chunks| {
      assert chunks[i..] == [];
    }
    assert S.Concat(chunks[..i]) + S.Concat(chunks[i..])[..0] == S.Concat(chunks[..i]);
    S.SkipRest(S.Init, S.Concat(chunks[..i]), S.Concat(chunks[i..]), 0);
    assert chunks[..|chunks|] == chunks;
    lexer.Finish();
    tokens := lexer.output;
  }
}
