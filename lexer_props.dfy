/** Properties of the tokenizer of `src/lexer.rs`, stated over the pure
    machine of lexer_spec.dfy (which the `Lexer` class is proved to run). */
module LexerProps {
  import opened Tokens
  import opened LexerSpec

  /** Reading `c` and then `rest` is one `Step` followed by a `Run`. */
  lemma {:induction false} RunCons(s: LexState, c: char, rest: string)
    requires Inv(s)
    ensures Run(s, [c] + rest).state == Run(Step(s, c).state, rest).state
    ensures Run(s, [c] + rest).tokens == Step(s, c).tokens + Run(Step(s, c).state, rest).tokens
  {
    assert ([c] + rest)[0] == c;
    assert ([c] + rest)[1..] == rest;
  }

  /** Reading a single character is one `Step`. */
  lemma {:induction false} RunOne(s: LexState, c: char)
    requires Inv(s)
    ensures Run(s, [c]) == Step(s, c)
  {
    RunCons(s, c, []);
    assert [c] + [] == [c];
    assert Step(s, c).tokens + [] == Step(s, c).tokens;
  }

  lemma SplitFirst(h: string)
    requires |h| > 0
    ensures h == [h[0]] + h[1..]
  {
  }

  lemma SplitAt(h: string, k: nat)
    requires k <= |h|
    ensures h == h[..k] + h[k..]
  {
  }

  // ---------------------------------------------------------------------
  // Whole runs

  /** A run over non-empty input from a live state is itself a transition:
      the invariant holds, `start` never moves backwards, the cursor has
      left line 1, column 1 (or the machine halted), token starts are in
      order, an Error token can only be the last one, after which the
      machine has halted, and the empty-source error is never sent. */
  lemma {:induction false} RunTransition(s: LexState, input: string)
    requires Inv(s) && !s.halted && |input| > 0
    ensures Transition(s, Run(s, input))
    decreases |input|
  {
    var e := Step(s, input[0]);
    StepTransition(s, input[0]);
    var rest := Run(e.state, input[1..]);
    if |input| == 1 {
      assert rest == Emit(e.state, []);
      assert e.tokens + [] == e.tokens;
    } else if e.state.halted {
      RunHalted(e.state, input[1..]);
      assert e.tokens + [] == e.tokens;
    } else {
      RunTransition(e.state, input[1..]);
      StartsConcat(e.tokens, rest.tokens, s.info.start, e.state.info.start, rest.state.info.start);
      ErrorsConcat(e.tokens, rest.tokens, rest.state.halted);
    }
  }

  /** An open string starts with its opening quote. */
  ghost predicate QuotedState(s: LexState) {
    s.current.Some? && s.current.value.StringLiteral? ==>
      |s.current.value.text| >= 1 && s.current.value.text[0] == '"'
  }

  /** Every StringLiteral token holds both of its quotes. */
  ghost predicate QuotedTokens(ts: seq<TokenPair>) {
    forall i :: 0 <= i < |ts| && ts[i].0.StringLiteral? ==>
      |ts[i].0.text| >= 2 && ts[i].0.text[0] == '"' && ts[i].0.text[|ts[i].0.text| - 1] == '"'
  }

  lemma {:induction false} QuotedConcat(a: seq<TokenPair>, b: seq<TokenPair>)
    requires QuotedTokens(a) && QuotedTokens(b)
    ensures QuotedTokens(a + b)
  {
    forall i | 0 <= i < |a + b| && (a + b)[i].0.StringLiteral?
      ensures |(a + b)[i].0.text| >= 2 && (a + b)[i].0.text[0] == '"'
              && (a + b)[i].0.text[|(a + b)[i].0.text| - 1] == '"'
    {
      if i >= |a| {
        assert (a + b)[i] == b[i - |a|];
      }
    }
  }

  lemma StringStepQuoted(s: LexState, text: string, c: char)
    requires Inv(s) && !s.halted && QuotedState(s) && s.current == Some(StringLiteral(text))
    ensures QuotedState(InString(s, text, c).state) && QuotedTokens(InString(s, text, c).tokens)
  {
  }

  lemma FreshStepQuoted(s: LexState, c: char)
    requires Inv(s) && !s.halted && (s.current.None? || IsKeyword(s.current.value))
    ensures QuotedState(Fresh(s, c).state) && QuotedTokens(Fresh(s, c).tokens)
  {
  }

  /** Each step keeps the opening quote of an open string, and a string is
      only sent with its closing quote appended. */
  lemma StepQuoted(s: LexState, c: char)
    requires Inv(s) && QuotedState(s)
    ensures QuotedState(Step(s, c).state) && QuotedTokens(Step(s, c).tokens)
  {
    if s.halted {
    } else if s.current.Some? && s.current.value.StringLiteral? {
      StringStepQuoted(s, s.current.value.text, c);
    } else if s.current.Some? && s.current.value.Integer? {
      IntegerStepQuoted(s, s.current.value.digits, c);
    } else {
      FreshStepQuoted(s, c);
    }
  }

  lemma IntegerStepQuoted(s: LexState, digits: string, c: char)
    requires Inv(s) && !s.halted && s.current == Some(Integer(digits))
    ensures QuotedState(InInteger(s, digits, c).state) && QuotedTokens(InInteger(s, digits, c).tokens)
  {
    if !IsDigit(c) {
      var flushed := s.(current := None,
                        info := s.info.(start := s.info.start + s.info.length, length := 0));
      var rest := Fresh(flushed, c);
      assert InInteger(s, digits, c) == Emit(rest.state, [(Integer(digits), s.info)] + rest.tokens);
      FreshStepQuoted(flushed, c);
      QuotedConcat([(Integer(digits), s.info)], rest.tokens);
    }
  }

  lemma {:induction false} RunQuoted(s: LexState, input: string)
    requires Inv(s) && QuotedState(s)
    ensures QuotedState(Run(s, input).state) && QuotedTokens(Run(s, input).tokens)
    decreases |input|
  {
    if |input| > 0 {
      var e := Step(s, input[0]);
      StepQuoted(s, input[0]);
      RunQuoted(e.state, input[1..]);
      QuotedConcat(e.tokens, Run(e.state, input[1..]).tokens);
    }
  }

  /** Every StringLiteral token `lex` sends starts and ends with a double
      quote, so it has at least two characters and the parser can strip
      them. */
  lemma {:induction false} StringTokensQuoted(input: string)
    ensures QuotedTokens(LexAll(input))
  {
    var r := Run(Init, input);
    RunQuoted(Init, input);
    QuotedConcat(r.tokens, Finish(r.state));
  }

  /** In everything `lex` sends, an Error token can only come last: every
      error branch of the source returns right after sending. */
  lemma {:induction false} ErrorIsLast(input: string)
    ensures forall i :: 0 <= i < |LexAll(input)| - 1 ==> !LexAll(input)[i].0.Error?
  {
    var r := Run(Init, input);
    if |input| > 0 {
      RunTransition(Init, input);
    }
    assert LexAll(input) == r.tokens + Finish(r.state);
  }

  /** Token starts never decrease along the token stream. */
  lemma {:induction false} StartsNondecreasing(input: string)
    ensures forall i, j :: 0 <= i < j < |LexAll(input)| ==> LexAll(input)[i].1.start <= LexAll(input)[j].1.start
  {
    var r := Run(Init, input);
    if |input| > 0 {
      RunTransition(Init, input);
      StartsConcat(r.tokens, Finish(r.state), 0, r.state.info.start, r.state.info.start);
    }
    assert LexAll(input) == r.tokens + Finish(r.state);
  }

  /** Empty input gives exactly one Error, "Source cannot be empty", at
      line 1, column 1. */
  lemma EmptyInput()
    ensures LexAll([]) == [(Error(ErrorInfo(EmptySource, None)), TokenInfo(1, 1, 0, 0))]
  {
    assert Run(Init, []) == Emit(Init, []);
  }

  /** The empty-source error is sent exactly when the input is empty: any
      character read moves the cursor off line 1, column 1, or halts. */
  lemma {:induction false} EmptySourceIffEmpty(input: string)
    ensures (exists i :: 0 <= i < |LexAll(input)| && LexAll(input)[i].0 == Error(ErrorInfo(EmptySource, None)))
            <==> |input| == 0
  {
    if |input| == 0 {
      EmptyInput();
      assert LexAll(input)[0].0 == Error(ErrorInfo(EmptySource, None));
    } else {
      var r := Run(Init, input);
      RunTransition(Init, input);
      assert LexAll(input) == r.tokens + Finish(r.state);
      forall i | 0 <= i < |LexAll(input)|
        ensures LexAll(input)[i].0 != Error(ErrorInfo(EmptySource, None))
      {
        if i >= |r.tokens| {
          assert LexAll(input)[i] == Finish(r.state)[i - |r.tokens|];
        }
      }
    }
  }

  // ---------------------------------------------------------------------
  // Keywords

  /** Between tokens: nothing is being built and no CRLF is pending. */
  ghost predicate Idle(s: LexState) {
    Inv(s) && !s.halted && s.current.None? && !s.expectLinefeed
  }

  predicate IsKeywordText(kw: string) {
    kw == "false" || kw == "true" || kw == "null"
  }

  /** The token a keyword becomes. */
  function KeywordToken(kw: string): (t: Token)
    requires IsKeywordText(kw)
    ensures IsKeyword(t)
  {
    if kw == "false" then FalseLiteral else if kw == "true" then TrueLiteral else NullLiteral
  }

  /** The first letter of a keyword opens its token, expects the remaining
      letters and sets `length` to the keyword's full length
      (lexer.rs:228-249). */
  lemma KeywordStart(s: LexState, kw: string)
    requires Idle(s) && IsKeywordText(kw)
    ensures Step(s, kw[0]) ==
            Emit(s.(current := Some(KeywordToken(kw)), expected := kw[1..],
                    info := s.info.(charPosition := s.info.charPosition + 1, length := |kw|)), [])
  {
    if kw == "false" {
      assert kw[1..] == "alse";
    } else if kw == "true" {
      assert kw[1..] == "rue";
    } else {
      assert kw[1..] == "ull";
    }
  }

  /** While a keyword is open, each expected letter only moves the column. */
  lemma {:induction false} PendingPrefix(s: LexState, k: nat)
    requires Inv(s) && !s.halted && s.current.Some? && IsKeyword(s.current.value)
    requires k < |s.expected|
    ensures Run(s, s.expected[..k]) ==
            Emit(s.(expected := s.expected[k..], info := s.info.(charPosition := s.info.charPosition + k)), [])
  {
    if k == 0 {
      assert s.expected[..0] == [];
      assert s.expected[0..] == s.expected;
      assert s.info.(charPosition := s.info.charPosition + 0) == s.info;
    } else {
      PendingPrefix(s, k - 1);
      assert s.expected[..k] == s.expected[..k - 1] + [s.expected[k - 1]];
      assert s.expected[k - 1..][1..] == s.expected[k..];
      RunSnoc(s, s.expected[..k - 1], s.expected[k - 1]);
    }
  }

  /** The last expected letter sends the keyword token, at the column of
      that letter, and moves `start` past it; `length` is left as it was
      (lexer.rs:199-211). */
  lemma {:induction false} PendingComplete(s: LexState)
    requires Inv(s) && !s.halted && s.current.Some? && IsKeyword(s.current.value)
    ensures Run(s, s.expected) ==
            Emit(s.(expected := "", current := None,
                    info := s.info.(charPosition := s.info.charPosition + |s.expected|,
                                    start := s.info.start + s.info.length)),
                 [(s.current.value, s.info.(charPosition := s.info.charPosition + |s.expected| - 1))])
  {
    var n := |s.expected| - 1;
    PendingPrefix(s, n);
    assert s.expected == s.expected[..n] + [s.expected[n]];
    assert s.expected[n..] == [s.expected[n]];
    RunSnoc(s, s.expected[..n], s.expected[n]);
  }

  /** From the state the first letter opened, the remaining letters
      complete the keyword. */
  lemma {:induction false} KeywordRest(s: LexState, kw: string, t: Token)
    requires Idle(s) && |kw| >= 2 && IsKeyword(t)
    requires Step(s, kw[0]) ==
             Emit(s.(current := Some(t), expected := kw[1..],
                     info := s.info.(charPosition := s.info.charPosition + 1, length := |kw|)), [])
    ensures Run(s, kw) ==
            Emit(s.(info := TokenInfo(s.info.lineNumber, s.info.charPosition + |kw|, s.info.start + |kw|, |kw|)),
                 [(t, TokenInfo(s.info.lineNumber, s.info.charPosition + |kw| - 1, s.info.start, |kw|))])
  {
    var rest := kw[1..];
    var s1 := Step(s, kw[0]).state;
    assert [kw[0]] + rest == kw;
    RunCons(s, kw[0], rest);
    PendingComplete(s1);
    var line, col, st := s.info.lineNumber, s.info.charPosition, s.info.start;
    assert s1.info == TokenInfo(line, col + 1, st, |kw|) && |s1.expected| == |kw| - 1;
    assert s.expected == "" && s.current.None?;
  }

  /** A whole keyword gives its token, positioned at the keyword's last
      letter, with its start and length; `start` then moves past it while
      `length` keeps the keyword's length. */
  lemma {:induction false} KeywordLexes(s: LexState, kw: string)
    requires Idle(s) && IsKeywordText(kw)
    ensures Run(s, kw) ==
            Emit(s.(info := TokenInfo(s.info.lineNumber, s.info.charPosition + |kw|, s.info.start + |kw|, |kw|)),
                 [(KeywordToken(kw), TokenInfo(s.info.lineNumber, s.info.charPosition + |kw| - 1, s.info.start, |kw|))])
  {
    KeywordStart(s, kw);
    KeywordRest(s, kw, KeywordToken(kw));
  }

  /** From the state the first letter opened, the first `k` letters leave
      the keyword open with the rest of it expected. */
  lemma {:induction false} PrefixAfter(s: LexState, kw: string, t: Token, k: nat)
    requires Idle(s) && IsKeyword(t) && 1 <= k < |kw|
    requires Step(s, kw[0]) ==
             Emit(s.(current := Some(t), expected := kw[1..],
                     info := s.info.(charPosition := s.info.charPosition + 1, length := |kw|)), [])
    ensures Run(s, kw[..k]) ==
            Emit(s.(current := Some(t), expected := kw[k..],
                    info := s.info.(charPosition := s.info.charPosition + k, length := |kw|)), [])
  {
    var s1 := s.(current := Some(t), expected := kw[1..],
                 info := s.info.(charPosition := s.info.charPosition + 1, length := |kw|));
    PendingPrefix(s1, k - 1);
    CutAfterFirst(kw, k);
    RunCons(s, kw[0], s1.expected[..k - 1]);
  }

  lemma CutAfterFirst(kw: string, k: nat)
    requires 1 <= k <= |kw|
    ensures kw[..k] == [kw[0]] + kw[1..][..k - 1]
    ensures kw[1..][k - 1..] == kw[k..]
  {
  }

  /** From the state the first letter opened, a letter that does not
      continue the keyword sends an Error and halts. */
  lemma {:induction false} MismatchAfter(s: LexState, kw: string, t: Token, k: nat, c: char)
    requires Idle(s) && IsKeyword(t) && 1 <= k < |kw| && c != kw[k]
    requires Step(s, kw[0]) ==
             Emit(s.(current := Some(t), expected := kw[1..],
                     info := s.info.(charPosition := s.info.charPosition + 1, length := |kw|)), [])
    ensures Run(s, kw[..k] + [c]).state.halted
    ensures Run(s, kw[..k] + [c]).tokens ==
            [(Error(ErrorInfo(UnrecognizedToken, Some(""))),
              TokenInfo(s.info.lineNumber, s.info.charPosition + k, s.info.start, |kw|))]
  {
    PrefixAfter(s, kw, t, k);
    var s2 := Run(s, kw[..k]).state;
    assert s2.expected[0] == kw[k];
    MismatchStep(s2, c);
    RunSnoc(s, kw[..k], c);
  }

  /** Input that ends inside a keyword sends nothing: the partial keyword
      is dropped (lexer.rs:335-358). */
  lemma {:induction false} KeywordCutOff(kw: string, k: nat)
    requires IsKeywordText(kw) && 1 <= k < |kw|
    ensures LexAll(kw[..k]) == []
  {
    KeywordStart(Init, kw);
    PrefixAfter(Init, kw, KeywordToken(kw), k);
  }

  /** A keyword letter that does not match halts with an Error. */
  lemma MismatchStep(x: LexState, c: char)
    requires Inv(x) && !x.halted && x.current.Some? && IsKeyword(x.current.value)
    requires x.expected[0] != c
    ensures Step(x, c) == Emit(x.(halted := true), [(Error(ErrorInfo(UnrecognizedToken, Some(""))), x.info)])
  {
  }

  /** A letter that does not continue the keyword sends a single
      "Unrecognized token" Error, with an empty fragment, and halts
      (lexer.rs:212-225). */
  lemma {:induction false} KeywordMismatch(s: LexState, kw: string, k: nat, c: char)
    requires Idle(s) && IsKeywordText(kw) && 1 <= k < |kw| && c != kw[k]
    ensures Run(s, kw[..k] + [c]).state.halted
    ensures Run(s, kw[..k] + [c]).tokens ==
            [(Error(ErrorInfo(UnrecognizedToken, Some(""))),
              TokenInfo(s.info.lineNumber, s.info.charPosition + k, s.info.start, |kw|))]
  {
    KeywordStart(s, kw);
    MismatchAfter(s, kw, KeywordToken(kw), k, c);
  }

  // ---------------------------------------------------------------------
  // Strings

  /** A string body the tokenizer accepts (lexer.rs:92-172): plain
      characters other than a double quote, a backslash, `\n` and `\r`; a
      backslash followed by one of the simple escapes; or `\u` followed by
      four hexadecimal digits in any mix of case. */
  ghost predicate StrBody(b: string)
    decreases |b|
  {
    if |b| == 0 then true
    else if IsBackslash(b[0]) then
      (|b| >= 2 && IsSimpleEscape(b[1]) && StrBody(b[2..])) ||
      (|b| >= 6 && b[1] == 'u' && AllHex(b[2..6]) && StrBody(b[6..]))
    else !IsDoubleQuote(b[0]) && !IsLinefeed(b[0]) && !IsCarriageReturn(b[0]) && StrBody(b[1..])
  }

  ghost predicate AllHex(h: string) {
    forall i :: 0 <= i < |h| ==> IsHexDigit(h[i])
  }

  /** A string token is open with no escape pending. */
  ghost predicate InPlainString(x: LexState, text: string) {
    Inv(x) && !x.halted && x.current == Some(StringLiteral(text)) && x.hexDigits == 0 && !x.expectEscape
  }

  /** The state after `n` more characters were pushed onto the open string. */
  function Pushed(x: LexState, text: string, n: nat): LexState {
    x.(current := Some(StringLiteral(text)),
       info := x.info.(length := x.info.length + n, charPosition := x.info.charPosition + n))
  }

  lemma OpenQuoteStep(s: LexState)
    requires Idle(s)
    ensures Step(s, '"') ==
            Emit(s.(current := Some(StringLiteral("\"")),
                    info := s.info.(charPosition := s.info.charPosition + 1, length := 1)), [])
  {
  }

  lemma PlainStep(x: LexState, text: string, c: char)
    requires InPlainString(x, text)
    requires !IsDoubleQuote(c) && !IsLinefeed(c) && !IsCarriageReturn(c) && !IsBackslash(c)
    ensures Step(x, c) == Emit(Pushed(x, text + [c], 1), [])
  {
  }

  lemma BackslashStep(x: LexState, text: string)
    requires InPlainString(x, text)
    ensures Step(x, '\\') == Emit(Pushed(x, text + ['\\'], 1).(expectEscape := true), [])
  {
  }

  lemma EscapedStep(x: LexState, text: string, c: char)
    requires Inv(x) && !x.halted && x.current == Some(StringLiteral(text)) && x.hexDigits == 0 && x.expectEscape
    ensures IsSimpleEscape(c) ==> Step(x, c) == Emit(Pushed(x, text + [c], 1).(expectEscape := false), [])
    ensures c == 'u' ==> Step(x, c) == Emit(Pushed(x, text + [c], 1).(expectEscape := false, hexDigits := 4), [])
    ensures !IsSimpleEscape(c) && c != 'u' ==>
              Step(x, c) == Emit(x.(expectEscape := false, halted := true),
                                 [(Error(ErrorInfo(UnsupportedEscape(c), None)), x.info)])
  {
  }

  lemma HexStep(x: LexState, text: string, c: char)
    requires Inv(x) && !x.halted && x.current == Some(StringLiteral(text)) && x.hexDigits > 0
    ensures IsHexDigit(c) ==> Step(x, c) == Emit(Pushed(x, text + [c], 1).(hexDigits := x.hexDigits - 1), [])
    ensures !IsHexDigit(c) ==>
              Step(x, c) == Emit(x.(halted := true), [(Error(ErrorInfo(BadHexDigit(c), None)), x.info)])
  {
  }

  lemma CloseQuoteStep(x: LexState, text: string)
    requires InPlainString(x, text)
    ensures Step(x, '"') ==
            Emit(x.(current := None,
                    info := x.info.(length := x.info.length + 1, charPosition := x.info.charPosition + 1,
                                    start := x.info.start + x.info.length + 1)),
                 [(StringLiteral(text + ['"']), Grow(x.info))])
  {
  }

  /** The hex digits of a `\u` escape are pushed one by one. */
  lemma {:induction false} HexRun(x: LexState, text: string, h: string)
    requires Inv(x) && !x.halted && x.current == Some(StringLiteral(text)) && x.hexDigits >= |h| && !x.expectEscape
    requires AllHex(h)
    ensures Run(x, h) == Emit(Pushed(x, text + h, |h|).(hexDigits := x.hexDigits - |h|), [])
    decreases |h|
  {
    if |h| == 0 {
      assert text + h == text;
      assert Pushed(x, text + h, 0).(hexDigits := x.hexDigits) == x;
    } else {
      HexStep(x, text, h[0]);
      var x1 := Pushed(x, text + [h[0]], 1).(hexDigits := x.hexDigits - 1);
      SplitFirst(h);
      RunCons(x, h[0], h[1..]);
      HexRun(x1, text + [h[0]], h[1..]);
      AppendAssoc(text, [h[0]], h[1..]);
      assert Pushed(x1, text + h, |h| - 1).(hexDigits := x1.hexDigits - (|h| - 1)) ==
             Pushed(x, text + h, |h|).(hexDigits := x.hexDigits - |h|);
    }
  }

  /** An accepted body is pushed onto the open string as it stands, escapes
      included, and nothing is sent. */
  lemma {:induction false} BodyRun(x: LexState, text: string, b: string)
    requires InPlainString(x, text) && StrBody(b)
    ensures Run(x, b) == Emit(Pushed(x, text + b, |b|), [])
    decreases |b|, 2
  {
    if |b| == 0 {
      assert text + b == text;
      assert Pushed(x, text + b, 0) == x;
    } else if IsBackslash(b[0]) {
      EscapeRun(x, text, b);
    } else {
      PlainStep(x, text, b[0]);
      var x1 := Pushed(x, text + [b[0]], 1);
      SplitFirst(b);
      RunCons(x, b[0], b[1..]);
      BodyRun(x1, text + [b[0]], b[1..]);
      AppendAssoc(text, [b[0]], b[1..]);
      assert Pushed(x1, text + b, |b| - 1) == Pushed(x, text + b, |b|);
    }
  }

  /** A body that starts with an escape sequence. */
  lemma {:induction false} EscapeRun(x: LexState, text: string, b: string)
    requires InPlainString(x, text) && StrBody(b) && |b| > 0 && IsBackslash(b[0])
    ensures Run(x, b) == Emit(Pushed(x, text + b, |b|), [])
    decreases |b|, 1
  {
    BackslashStep(x, text);
    var x1 := Pushed(x, text + ['\\'], 1).(expectEscape := true);
    SplitFirst(b);
    RunCons(x, b[0], b[1..]);
    EscapedStep(x1, text + ['\\'], b[1]);
    SplitFirst(b[1..]);
    RunCons(x1, b[1], b[2..]);
    var t2 := (text + ['\\']) + [b[1]];
    EscapePrefix(text, b);
    if IsSimpleEscape(b[1]) {
      var x2 := Pushed(x, t2, 2);
      assert Pushed(x1, t2, 1).(expectEscape := false) == x2;
      BodyRun(x2, t2, b[2..]);
      assert Pushed(x2, text + b, |b| - 2) == Pushed(x, text + b, |b|);
    } else {
      var x2 := Pushed(x, t2, 2).(hexDigits := 4);
      assert Pushed(x1, t2, 1).(expectEscape := false, hexDigits := 4) == x2;
      HexTail(x, x2, text, b);
    }
  }

  lemma EscapePrefix(text: string, b: string)
    requires |b| >= 2 && IsBackslash(b[0])
    ensures (text + ['\\']) + [b[1]] == text + b[..2]
    ensures ((text + ['\\']) + [b[1]]) + b[2..] == text + b
  {
    assert b == b[..2] + b[2..];
  }

  /** The four hex digits after `\u`, then the rest of the body. */
  lemma {:induction false} HexTail(x: LexState, x2: LexState, text: string, b: string)
    requires InPlainString(x, text) && |b| >= 6 && StrBody(b) && IsBackslash(b[0]) && b[1] == 'u'
    requires AllHex(b[2..6]) && StrBody(b[6..])
    requires x2 == Pushed(x, text + b[..2], 2).(hexDigits := 4)
    ensures Run(x2, b[2..]) == Emit(Pushed(x, text + b, |b|), [])
    decreases |b|, 0
  {
    var t2 := text + b[..2];
    HexSplit(text, b);
    RunAppend(x2, b[2..6], b[6..]);
    HexRun(x2, t2, b[2..6]);
    var t6 := t2 + b[2..6];
    var x6 := Pushed(x, t6, 6);
    assert Pushed(x2, t6, 4).(hexDigits := 0) == x6;
    BodyRun(x6, t6, b[6..]);
    assert Pushed(x6, text + b, |b| - 6) == Pushed(x, text + b, |b|);
  }

  lemma HexSplit(text: string, b: string)
    requires |b| >= 6
    ensures b[2..] == b[2..6] + b[6..]
    ensures ((text + b[..2]) + b[2..6]) + b[6..] == text + b
  {
    assert b[..2] + b[2..6] + b[6..] == b;
  }

  lemma NewlineStep(x: LexState, text: string, c: char)
    requires InPlainString(x, text) && (IsLinefeed(c) || IsCarriageReturn(c))
    ensures Step(x, c) == Emit(x.(halted := true), [(Error(ErrorInfo(MultiLineString, None)), x.info)])
  {
  }

  /** A quote and an accepted body leave the string open, `length` and
      the column moved by the characters read. */
  lemma {:induction false} OpenString(s: LexState, b: string)
    requires Idle(s) && StrBody(b)
    ensures Run(s, ['"'] + b) ==
            Emit(s.(current := Some(StringLiteral(['"'] + b)),
                    info := s.info.(charPosition := s.info.charPosition + 1 + |b|, length := 1 + |b|)), [])
  {
    OpenQuoteStep(s);
    var x := s.(current := Some(StringLiteral("\"")),
                info := s.info.(charPosition := s.info.charPosition + 1, length := 1));
    RunCons(s, '"', b);
    BodyRun(x, "\"", b);
  }

  /** A quoted string with an accepted body is one StringLiteral token whose
      text is the raw input, quotes and escapes included, and whose length
      is the length of that text (lexer.rs:141-151). An escaped quote does
      not close the string. */
  lemma {:induction false} StringLexes(s: LexState, b: string)
    requires Idle(s) && StrBody(b)
    ensures Run(s, ['"'] + b + ['"']) ==
            Emit(s.(info := TokenInfo(s.info.lineNumber, s.info.charPosition + |b| + 2,
                                      s.info.start + |b| + 2, |b| + 2)),
                 [(StringLiteral(['"'] + b + ['"']),
                   TokenInfo(s.info.lineNumber, s.info.charPosition + |b| + 2, s.info.start, |b| + 2))])
  {
    OpenString(s, b);
    var x := Run(s, ['"'] + b).state;
    CloseQuoteStep(x, ['"'] + b);
    RunSnoc(s, ['"'] + b, '"');
  }

  /** A raw `\n` or `\r` inside a string sends "Multi-line strings are not
      allowed" and halts (lexer.rs:152-161). */
  lemma {:induction false} NewlineInString(s: LexState, b: string, c: char)
    requires Idle(s) && StrBody(b) && (IsLinefeed(c) || IsCarriageReturn(c))
    ensures Run(s, ['"'] + b + [c]).state.halted
    ensures Run(s, ['"'] + b + [c]).tokens ==
            [(Error(ErrorInfo(MultiLineString, None)),
              TokenInfo(s.info.lineNumber, s.info.charPosition + |b| + 1, s.info.start, |b| + 1))]
  {
    OpenString(s, b);
    NewlineStep(Run(s, ['"'] + b).state, ['"'] + b, c);
    RunSnoc(s, ['"'] + b, c);
  }

  /** After a backslash, a character other than the simple escapes and `u`
      sends "Unsupported escaped character" and halts (lexer.rs:117-140). */
  lemma {:induction false} BadEscapeInString(s: LexState, b: string, c: char)
    requires Idle(s) && StrBody(b) && !IsSimpleEscape(c) && c != 'u'
    ensures Run(s, ['"'] + b + ['\\'] + [c]).state.halted
    ensures Run(s, ['"'] + b + ['\\'] + [c]).tokens ==
            [(Error(ErrorInfo(UnsupportedEscape(c), None)),
              TokenInfo(s.info.lineNumber, s.info.charPosition + |b| + 2, s.info.start, |b| + 2))]
  {
    OpenString(s, b);
    var p := ['"'] + b;
    BackslashStep(Run(s, p).state, p);
    RunSnoc(s, p, '\\');
    EscapedStep(Run(s, p + ['\\']).state, p + ['\\'], c);
    RunSnoc(s, p + ['\\'], c);
  }

  /** A quote, an accepted body and `\u`: four hex digits are expected. */
  lemma {:induction false} OpenUnicode(s: LexState, b: string)
    requires Idle(s) && StrBody(b)
    ensures Run(s, ['"'] + b + ['\\'] + ['u']) ==
            Emit(s.(current := Some(StringLiteral(['"'] + b + ['\\'] + ['u'])), hexDigits := 4,
                    info := s.info.(charPosition := s.info.charPosition + 3 + |b|, length := 3 + |b|)), [])
  {
    OpenString(s, b);
    var p := ['"'] + b;
    BackslashStep(Run(s, p).state, p);
    RunSnoc(s, p, '\\');
    var p1 := p + ['\\'];
    EscapedStep(Run(s, p1).state, p1, 'u');
    RunSnoc(s, p1, 'u');
  }

  /** Fewer hex digits than expected, then a non-hex character. */
  lemma {:induction false} HexThenBad(x: LexState, text: string, h: string, c: char)
    requires Inv(x) && !x.halted && x.current == Some(StringLiteral(text)) && x.hexDigits > |h| && !x.expectEscape
    requires AllHex(h) && !IsHexDigit(c)
    ensures Run(x, h + [c]).state.halted
    ensures Run(x, h + [c]).tokens ==
            [(Error(ErrorInfo(Message.BadHexDigit(c), None)),
              x.info.(length := x.info.length + |h|, charPosition := x.info.charPosition + |h|))]
  {
    HexRun(x, text, h);
    var x3 := Pushed(x, text + h, |h|).(hexDigits := x.hexDigits - |h|);
    assert Run(x, h) == Emit(x3, []);
    HexStep(x3, text + h, c);
    var bad := (Error(ErrorInfo(Message.BadHexDigit(c), None)), x3.info);
    assert Step(x3, c) == Emit(x3.(halted := true), [bad]);
    RunSnoc(x, h, c);
  }

  /** Fewer than four hex digits after `\u`, then a non-hex character:
      an Error naming that character, then a halt (lexer.rs:92-116). */
  lemma {:induction false} BadHexInString(s: LexState, b: string, h: string, c: char)
    requires Idle(s) && StrBody(b) && |h| < 4 && AllHex(h) && !IsHexDigit(c)
    ensures Run(s, ['"'] + b + ['\\'] + ['u'] + (h + [c])).state.halted
    ensures Run(s, ['"'] + b + ['\\'] + ['u'] + (h + [c])).tokens ==
            [(Error(ErrorInfo(Message.BadHexDigit(c), None)),
              TokenInfo(s.info.lineNumber, s.info.charPosition + |b| + 3 + |h|, s.info.start, |b| + 3 + |h|))]
  {
    var p2 := ['"'] + b + ['\\'] + ['u'];
    var x2 := s.(current := Some(StringLiteral(p2)), hexDigits := 4,
                 info := s.info.(charPosition := s.info.charPosition + 3 + |b|, length := 3 + |b|));
    OpenUnicode(s, b);
    assert Run(s, p2) == Emit(x2, []);
    HexThenBad(x2, p2, h, c);
    assert x2.info.(length := x2.info.length + |h|, charPosition := x2.info.charPosition + |h|) ==
           TokenInfo(s.info.lineNumber, s.info.charPosition + |b| + 3 + |h|, s.info.start, |b| + 3 + |h|);
    RunAppend(s, p2, h + [c]);
  }

  /** Input that ends inside a string sends nothing: the partial string is
      dropped (lexer.rs:335-358). */
  lemma {:induction false} StringCutOff(b: string)
    requires StrBody(b)
    ensures LexAll(['"'] + b) == []
  {
    OpenString(Init, b);
  }

  // ---------------------------------------------------------------------
  // Whitespace and line breaks

  predicate Blank(w: string) {
    forall i :: 0 <= i < |w| ==> w[i] == ' ' || w[i] == '\t'
  }

  lemma BlankStep(s: LexState, c: char)
    requires Idle(s) && (c == ' ' || c == '\t')
    ensures Step(s, c) ==
            Emit(s.(info := s.info.(charPosition := s.info.charPosition + 1, start := s.info.start + 1)), [])
  {
  }

  /** Spaces and tabs send nothing and move the column and `start` by one
      each (lexer.rs:279-282). */
  lemma {:induction false} BlanksRun(s: LexState, w: string)
    requires Idle(s) && Blank(w)
    ensures Run(s, w) ==
            Emit(s.(info := s.info.(charPosition := s.info.charPosition + |w|, start := s.info.start + |w|)), [])
    decreases |w|
  {
    if |w| == 0 {
      assert s.info.(charPosition := s.info.charPosition + 0, start := s.info.start + 0) == s.info;
    } else {
      BlankStep(s, w[0]);
      var s1 := s.(info := s.info.(charPosition := s.info.charPosition + 1, start := s.info.start + 1));
      SplitFirst(w);
      RunCons(s, w[0], w[1..]);
      BlanksRun(s1, w[1..]);
    }
  }

  /** Input of spaces and tabs only sends nothing at all: the cursor has
      moved, so the empty-source error does not fire (lexer.rs:346-358). */
  lemma {:induction false} BlankInput(w: string)
    requires |w| > 0 && Blank(w)
    ensures LexAll(w) == []
  {
    BlanksRun(Init, w);
  }

  /** `\n` starts a new line at column 1 and moves `start` (lexer.rs:273-278). */
  lemma LinefeedStep(s: LexState)
    requires Idle(s)
    ensures Step(s, '\n') ==
            Emit(s.(info := s.info.(lineNumber := s.info.lineNumber + 1, charPosition := 1,
                                    start := s.info.start + 1)), [])
  {
  }

  /** `\r` starts a new line too, and notes that a `\n` may follow
      (lexer.rs:267-272). */
  lemma CarriageReturnStep(s: LexState)
    requires Idle(s)
    ensures Step(s, '\r') ==
            Emit(s.(expectLinefeed := true,
                    info := s.info.(lineNumber := s.info.lineNumber + 1, charPosition := 1,
                                    start := s.info.start + 1)), [])
  {
  }

  /** A `\n` right after `\r` only moves `start`; the flag is not cleared
      (lexer.rs:188-198). */
  lemma AbsorbedLinefeedStep(x: LexState)
    requires Inv(x) && !x.halted && x.expectLinefeed
    ensures Step(x, '\n') == Emit(x.(info := x.info.(start := x.info.start + 1)), [])
  {
  }

  /** `\r\n` is one line break. */
  lemma {:induction false} CrLf(s: LexState)
    requires Idle(s)
    ensures Run(s, "\r\n") ==
            Emit(s.(expectLinefeed := true,
                    info := s.info.(lineNumber := s.info.lineNumber + 1, charPosition := 1,
                                    start := s.info.start + 2)), [])
  {
    CarriageReturnStep(s);
    var s1 := Step(s, '\r').state;
    AbsorbedLinefeedStep(s1);
    assert "\r\n" == ['\r'] + ['\n'];
    RunCons(s, '\r', ['\n']);
    RunOne(s1, '\n');
  }

  /** Because the flag stays set, `\r\n\n` is still one line break: the
      second `\n` is absorbed as well. */
  lemma {:induction false} CrLfLf(s: LexState)
    requires Idle(s)
    ensures Run(s, "\r\n\n") ==
            Emit(s.(expectLinefeed := true,
                    info := s.info.(lineNumber := s.info.lineNumber + 1, charPosition := 1,
                                    start := s.info.start + 3)), [])
  {
    CrLf(s);
    var s2 := Run(s, "\r\n").state;
    AbsorbedLinefeedStep(s2);
    assert "\r\n\n" == "\r\n" + ['\n'];
    RunSnoc(s, "\r\n", '\n');
  }

  /** A blank right after `\r\n` ends the wait for a linefeed and moves on
      like any blank. */
  lemma BlankAfterCrLf(x: LexState)
    requires Inv(x) && !x.halted && x.expectLinefeed
    ensures Step(x, ' ') ==
            Emit(x.(expectLinefeed := false,
                    info := x.info.(charPosition := x.info.charPosition + 1, start := x.info.start + 1)), [])
  {
  }

  /** Blanks, `null` and one more blank, from any idle position: the one
      token carries the column of the keyword's last letter. */
  lemma {:induction false} PaddedNullRun(s: LexState, pre: string)
    requires Idle(s) && Blank(pre)
    ensures Run(s, pre + "null ") ==
            Emit(s.(info := TokenInfo(s.info.lineNumber, s.info.charPosition + |pre| + 5, s.info.start + |pre| + 5, 4)),
                 [(NullLiteral, TokenInfo(s.info.lineNumber, s.info.charPosition + |pre| + 3, s.info.start + |pre|, 4))])
  {
    BlanksRun(s, pre);
    var s1 := Run(s, pre).state;
    KeywordLexes(s1, "null");
    var s2 := Run(s1, "null").state;
    BlanksRun(s2, " ");
    RunAppend(s, pre, "null");
    RunAppend(s, pre + "null", " ");
    assert pre + "null " == (pre + "null") + " ";
  }

  /** From the start of the input, blanks, `null` and a blank send just the
      NullLiteral: the cursor has moved, so `Finish` adds nothing. */
  lemma {:induction false} PaddedNullInput(pre: string)
    requires Blank(pre)
    ensures LexAll(pre + "null ") == [(NullLiteral, TokenInfo(1, |pre| + 4, |pre|, 4))]
  {
    PaddedNullRun(Init, pre);
  }

  /** `   null ` is one NullLiteral at line 1, column 7, start 3, length 4. */
  lemma PaddedNull()
    ensures LexAll("   null ") == [(NullLiteral, TokenInfo(1, 7, 3, 4))]
  {
    PaddedNullInput("   ");
    assert "   " + "null " == "   null ";
  }

  /** `\n`, `\r\n` and a blank: two line breaks and one column, nothing
      sent, no linefeed awaited any more. */
  lemma {:induction false} TwoBreaksRun()
    ensures Run(Init, "\n\r\n ") == Emit(Init.(info := TokenInfo(3, 2, 4, 0)), [])
  {
    LinefeedStep(Init);
    RunOne(Init, '\n');
    var s1 := Run(Init, "\n").state;
    CrLf(s1);
    RunAppend(Init, "\n", "\r\n");
    assert "\n\r\n" == "\n" + "\r\n";
    var s2 := Run(Init, "\n\r\n").state;
    BlankAfterCrLf(s2);
    RunOne(s2, ' ');
    RunAppend(Init, "\n\r\n", " ");
    assert "\n\r\n " == "\n\r\n" + " ";
  }

  /** After those two line breaks, blanks, `null` and a blank send just the
      NullLiteral, on line 3. */
  lemma {:induction false} LineNumbersInput(pre: string)
    requires Blank(pre)
    ensures LexAll("\n\r\n " + (pre + "null ")) == [(NullLiteral, TokenInfo(3, |pre| + 5, |pre| + 4, 4))]
  {
    TwoBreaksRun();
    var s3 := Init.(info := TokenInfo(3, 2, 4, 0));
    PaddedNullRun(s3, pre);
    RunAppend(Init, "\n\r\n ", pre + "null ");
  }

  /** `\n\r\n   null `: a `\n` and a `\r\n` make two line breaks, so the
      NullLiteral is on line 3, at column 7 and start 6. */
  lemma LineNumbers()
    ensures LexAll("\n\r\n   null ") == [(NullLiteral, TokenInfo(3, 7, 6, 4))]
  {
    LineNumbersInput("  ");
    assert "\n\r\n " + ("  " + "null ") == "\n\r\n   null ";
  }

  // ---------------------------------------------------------------------
  // Integers and punctuation

  predicate AllDigits(d: string) {
    forall i :: 0 <= i < |d| ==> IsDigit(d[i])
  }

  lemma FirstDigitStep(s: LexState, c: char)
    requires Idle(s) && IsDigit(c)
    ensures Step(s, c) == Emit(s.(current := Some(Integer([c])), info := Grow(s.info)), [])
  {
  }

  lemma DigitStep(x: LexState, d: string, c: char)
    requires Inv(x) && !x.halted && x.current == Some(Integer(d)) && IsDigit(c)
    ensures Step(x, c) == Emit(x.(current := Some(Integer(d + [c])), info := Grow(x.info)), [])
  {
  }

  /** More digits extend the open Integer. */
  lemma {:induction false} DigitsExtend(x: LexState, d: string, e: string)
    requires Inv(x) && !x.halted && x.current == Some(Integer(d)) && AllDigits(e)
    ensures Run(x, e) ==
            Emit(x.(current := Some(Integer(d + e)),
                    info := x.info.(length := x.info.length + |e|, charPosition := x.info.charPosition + |e|)), [])
    decreases |e|
  {
    if |e| == 0 {
      assert d + e == d;
      assert x.info.(length := x.info.length + 0, charPosition := x.info.charPosition + 0) == x.info;
    } else {
      DigitStep(x, d, e[0]);
      var x1 := x.(current := Some(Integer(d + [e[0]])), info := Grow(x.info));
      SplitFirst(e);
      RunCons(x, e[0], e[1..]);
      DigitsExtend(x1, d + [e[0]], e[1..]);
      AppendAssoc(d, [e[0]], e[1..]);
    }
  }

  /** A digit run opens one Integer holding all of it; `length` grows from
      whatever it was, so a stale length left by a string or keyword is
      carried into the Integer (lexer.rs:310-316, 173-179). */
  lemma {:induction false} DigitsRun(s: LexState, d: string)
    requires Idle(s) && |d| > 0 && AllDigits(d)
    ensures Run(s, d) ==
            Emit(s.(current := Some(Integer(d)),
                    info := s.info.(length := s.info.length + |d|, charPosition := s.info.charPosition + |d|)), [])
  {
    FirstDigitStep(s, d[0]);
    var x := s.(current := Some(Integer([d[0]])), info := Grow(s.info));
    SplitFirst(d);
    RunCons(s, d[0], d[1..]);
    DigitsExtend(x, [d[0]], d[1..]);
  }

  /** A digit run at the end of the input is flushed as one Integer
      (lexer.rs:338-344). */
  lemma {:induction false} IntegerAtEnd(d: string)
    requires |d| > 0 && AllDigits(d)
    ensures LexAll(d) == [(Integer(d), TokenInfo(1, 1 + |d|, 0, |d|))]
  {
    DigitsRun(Init, d);
    var x := Init.(current := Some(Integer(d)), info := TokenInfo(1, 1 + |d|, 0, |d|));
    assert Run(Init, d) == Emit(x, []);
    assert Finish(x) == [(Integer(d), x.info)];
  }

  lemma SimpleStep(s: LexState, c: char)
    requires Idle(s) && SimpleToken(c).Some?
    ensures Step(s, c) ==
            Emit(s.(info := s.info.(charPosition := s.info.charPosition + 1, start := s.info.start + 1, length := 0)),
                 [(SimpleToken(c).value, s.info.(charPosition := s.info.charPosition + 1, length := 1))])
  {
  }

  /** Between tokens, a character that opens no string, breaks no line, is
      no blank, no punctuation, no digit and no keyword's first letter sends
      "Encountered an unexpected character" at the current position, and
      `lex` returns (lexer.rs:317-330). */
  lemma UnexpectedStep(s: LexState, c: char)
    requires Idle(s)
    requires !IsDigit(c) && SimpleToken(c).None? && c !in "\"\r\n \tftn"
    ensures Step(s, c) == Emit(s.(halted := true), [(Error(ErrorInfo(UnexpectedCharacter(c), None)), s.info)])
  {
  }

  /** Input that starts with such a character sends that one Error at
      line 1, column 1, whatever follows it. */
  lemma {:induction false} UnexpectedFirst(c: char, rest: string)
    requires !IsDigit(c) && SimpleToken(c).None? && c !in "\"\r\n \tftn"
    ensures LexAll([c] + rest) == [(Error(ErrorInfo(UnexpectedCharacter(c), None)), TokenInfo(1, 1, 0, 0))]
  {
    UnexpectedStep(Init, c);
    RunCons(Init, c, rest);
    RunHalted(Step(Init, c).state, rest);
  }

  /** `@` is one of them. */
  lemma UnexpectedAt()
    ensures LexAll("@") == [(Error(ErrorInfo(UnexpectedCharacter('@'), None)), TokenInfo(1, 1, 0, 0))]
  {
    UnexpectedFirst('@', "");
    assert ['@'] + "" == "@";
  }

  /** The character that ends a digit run is read afresh after the Integer
      is sent; `start` moves past the Integer and `length` restarts at 0
      (lexer.rs:180-187). */
  lemma {:induction false} IntegerThenPunctuation(s: LexState, d: string, c: char)
    requires Idle(s) && |d| > 0 && AllDigits(d) && SimpleToken(c).Some?
    ensures Run(s, d + [c]).tokens ==
            [(Integer(d), s.info.(length := s.info.length + |d|, charPosition := s.info.charPosition + |d|)),
             (SimpleToken(c).value,
              TokenInfo(s.info.lineNumber, s.info.charPosition + |d| + 1, s.info.start + s.info.length + |d|, 1))]
  {
    DigitsRun(s, d);
    var x := s.(current := Some(Integer(d)),
                info := s.info.(length := s.info.length + |d|, charPosition := s.info.charPosition + |d|));
    assert Run(s, d) == Emit(x, []);
    IntegerEndStep(x, d, c);
    RunSnoc(s, d, c);
  }

  /** Punctuation after digits sends the Integer, then the punctuation. */
  lemma IntegerEndStep(x: LexState, d: string, c: char)
    requires Inv(x) && !x.halted && x.current == Some(Integer(d)) && SimpleToken(c).Some?
    ensures Step(x, c).tokens ==
            [(Integer(d), x.info),
             (SimpleToken(c).value,
              TokenInfo(x.info.lineNumber, x.info.charPosition + 1, x.info.start + x.info.length, 1))]
  {
    var flushed := x.(current := None, info := x.info.(start := x.info.start + x.info.length, length := 0));
    SimpleStep(flushed, c);
    assert Step(x, c) == InInteger(x, d, c);
  }

  predicate AllPunctuation(p: string) {
    forall i :: 0 <= i < |p| ==> SimpleToken(p[i]).Some?
  }

  /** The tokens a run of punctuation characters on line `line` is expected
      to give, the first character standing at `column` and offset `start`:
      one token per character, of length 1, at the column just after it. */
  function Punctuated(line: nat, column: nat, start: nat, p: string): seq<TokenPair>
    requires AllPunctuation(p)
    decreases |p|
  {
    if |p| == 0 then []
    else [(SimpleToken(p[0]).value, TokenInfo(line, column + 1, start, 1))] + Punctuated(line, column + 1, start + 1, p[1..])
  }

  /** The `i`th token of a punctuation run is the `i`th character's. */
  lemma {:induction false} PunctuatedAt(line: nat, column: nat, start: nat, p: string)
    requires AllPunctuation(p)
    ensures |Punctuated(line, column, start, p)| == |p|
    ensures forall i :: 0 <= i < |p| ==>
              Punctuated(line, column, start, p)[i] == (SimpleToken(p[i]).value, TokenInfo(line, column + i + 1, start + i, 1))
    decreases |p|
  {
    if |p| > 0 {
      PunctuatedAt(line, column + 1, start + 1, p[1..]);
      forall i | 0 < i < |p|
        ensures Punctuated(line, column, start, p)[i] == (SimpleToken(p[i]).value, TokenInfo(line, column + i + 1, start + i, 1))
      {
        assert Punctuated(line, column, start, p)[i] == Punctuated(line, column + 1, start + 1, p[1..])[i - 1];
        assert p[1..][i - 1] == p[i];
      }
    }
  }

  /** Each punctuation character is read as its own token (lexer.rs:285-308);
      `start` and the column move past the run and `length` ends at 0. */
  lemma {:induction false} PunctuationRun(s: LexState, p: string)
    requires Idle(s) && AllPunctuation(p)
    ensures Run(s, p).tokens == Punctuated(s.info.lineNumber, s.info.charPosition, s.info.start, p)
    ensures |p| > 0 ==>
              Run(s, p).state ==
              s.(info := s.info.(charPosition := s.info.charPosition + |p|, start := s.info.start + |p|, length := 0))
    decreases |p|
  {
    if |p| > 0 {
      SimpleStep(s, p[0]);
      var s1 := s.(info := s.info.(charPosition := s.info.charPosition + 1, start := s.info.start + 1, length := 0));
      SplitFirst(p);
      RunCons(s, p[0], p[1..]);
      PunctuationRun(s1, p[1..]);
      if |p| == 1 {
        assert Run(s1, p[1..]) == Emit(s1, []);
      }
    }
  }

  // ---------------------------------------------------------------------
  // Worked inputs

  /** `false` on its own (lexer.rs:199-249). */
  lemma FalseInput()
    ensures LexAll("false") == [(FalseLiteral, TokenInfo(1, 5, 0, 5))]
  {
    KeywordLexes(Init, "false");
  }

  /** `null` fed as the chunks `nu`, `l`, `l` is one NullLiteral: the whole
      state survives chunk boundaries. */
  lemma ChunkedNull()
    ensures LexAll(Concat(["nu", "l", "l"])) == [(NullLiteral, TokenInfo(1, 4, 0, 4))]
  {
    assert ["nu", "l", "l"][..2] == ["nu", "l"];
    assert ["nu", "l"][..1] == ["nu"];
    assert ["nu"][..0] == [];
    assert Concat(["nu", "l", "l"]) == "null";
    KeywordLexes(Init, "null");
  }

  /** `true1`: the Integer after a keyword inherits the keyword's length,
      so it is reported with length 5 although it has one digit. */
  lemma TrueThenDigit()
    ensures LexAll("true1") ==
            [(TrueLiteral, TokenInfo(1, 4, 0, 4)), (Integer("1"), TokenInfo(1, 6, 4, 5))]
  {
    KeywordLexes(Init, "true");
    var s := Run(Init, "true").state;
    FirstDigitStep(s, '1');
    assert "true1" == "true" + ['1'];
    RunSnoc(Init, "true", '1');
  }

  /** Eleven punctuation characters give eleven tokens of length 1. */
  lemma ElevenPunctuation()
    ensures |LexAll("-+{}[].e,:E")| == 11
    ensures forall i :: 0 <= i < 11 ==> LexAll("-+{}[].e,:E")[i].1.length == 1
  {
    var p := "-+{}[].e,:E";
    assert AllPunctuation(p) by {
      forall i | 0 <= i < |p| ensures SimpleToken(p[i]).Some? {
      }
    }
    PunctuationRun(Init, p);
    PunctuatedAt(1, 1, 0, p);
  }
}
