/** The tokenizer of `src/lexer.rs` as a pure state machine: one call of `Step`
    per character, `Finish` once the input is exhausted. The class in
    lexer.dfy runs the same machine on mutable fields and is proved to agree
    with these functions. */
module LexerSpec {
  import opened Tokens

  /** Every local of `lex` that survives from one character to the next.
      `halted` records that `lex` has returned (after an Error token). */
  datatype LexState = LexState(
    current: Option<Token>,
    info: TokenInfo,
    expected: string,
    expectLinefeed: bool,
    expectEscape: bool,
    hexDigits: nat,
    halted: bool)

  /** A new state and the tokens sent while reaching it. */
  datatype Emit = Emit(state: LexState, tokens: seq<TokenPair>)

  const Init := LexState(None, TokenInfo(1, 1, 0, 0), "", false, false, 0, false)

  /** The machine's invariant: the keyword remainder is pending exactly while
      a keyword token is being built, escapes only happen inside strings, and
      a pending CRLF is only possible right after a `\r`, with nothing
      being built, at column 1 of a line after the first; a token under
      construction means the cursor has moved. The last clause is
      why the source's `panic!` on a pending linefeed never fires. */
  ghost predicate Inv(s: LexState) {
    s.info.lineNumber >= 1 && s.info.charPosition >= 1 &&
    (|s.expected| > 0 <==> s.current.Some? && IsKeyword(s.current.value)) &&
    (s.current.Some? ==> IsKeyword(s.current.value) || s.current.value.StringLiteral? || s.current.value.Integer?) &&
    (s.hexDigits > 0 || s.expectEscape ==> s.current.Some? && s.current.value.StringLiteral?) &&
    s.hexDigits <= 4 &&
    (s.current.Some? ==> s.info.lineNumber > 1 || s.info.charPosition > 1) &&
    (s.expectLinefeed ==> s.current.None? && s.info.charPosition == 1 && s.info.lineNumber >= 2)
  }

  /** The position has moved off line 1, column 1: some character was read. */
  ghost predicate Moved(s: LexState) {
    s.info.lineNumber > 1 || s.info.charPosition > 1
  }

  /** An Error token, if any, is the last one and only a halted state follows it. */
  ghost predicate ErrorsFinal(ts: seq<TokenPair>, halted: bool) {
    (forall i :: 0 <= i < |ts| - 1 ==> !ts[i].0.Error?) &&
    (|ts| > 0 && ts[|ts| - 1].0.Error? ==> halted)
  }

  /** Token starts never decrease and never pass the cursor `bound`. */
  ghost predicate StartsOrdered(ts: seq<TokenPair>, lo: nat, bound: nat) {
    (forall i :: 0 <= i < |ts| ==> lo <= ts[i].1.start <= bound) &&
    (forall i, j :: 0 <= i < j < |ts| ==> ts[i].1.start <= ts[j].1.start)
  }

  /** What every transition of the machine guarantees. */
  ghost predicate Transition(s: LexState, r: Emit) {
    Inv(r.state) &&
    r.state.info.start >= s.info.start &&
    (Moved(r.state) || r.state.halted) &&
    ErrorsFinal(r.tokens, r.state.halted) &&
    (!r.state.halted ==> forall i :: 0 <= i < |r.tokens| ==> !r.tokens[i].0.Error?) &&
    (forall i :: 0 <= i < |r.tokens| ==> r.tokens[i].0 != Error(ErrorInfo(EmptySource, None))) &&
    StartsOrdered(r.tokens, s.info.start, r.state.info.start)
  }

  lemma AppendAssoc<T>(a: seq<T>, b: seq<T>, c: seq<T>)
    ensures (a + b) + c == a + (b + c)
  {
  }

  lemma {:induction false} StartsConcat(a: seq<TokenPair>, b: seq<TokenPair>, lo: nat, mid: nat, hi: nat)
    requires lo <= mid <= hi && StartsOrdered(a, lo, mid) && StartsOrdered(b, mid, hi)
    ensures StartsOrdered(a + b, lo, hi)
  {
  }

  lemma {:induction false} ErrorsConcat(a: seq<TokenPair>, b: seq<TokenPair>, halted: bool)
    requires forall i :: 0 <= i < |a| ==> !a[i].0.Error?
    requires ErrorsFinal(b, halted)
    ensures ErrorsFinal(a + b, halted)
  {
  }

  function Grow(info: TokenInfo): TokenInfo {
    info.(length := info.length + 1, charPosition := info.charPosition + 1)
  }

  function Halt(s: LexState, message: Message, fragment: Option<string>): Emit {
    Emit(s.(halted := true), [(Error(ErrorInfo(message, fragment)), s.info)])
  }

  /** The single-character tokens. */
  function SimpleToken(c: char): (r: Option<Token>)
    ensures r.Some? ==> !IsKeyword(r.value) && !r.value.Error?
  {
    match c
    case '-' => Some(MinusSign)
    case '+' => Some(PlusSign)
    case '{' => Some(LeftCurly)
    case '}' => Some(RightCurly)
    case '[' => Some(LeftBracket)
    case ']' => Some(RightBracket)
    case ',' => Some(Comma)
    case 'e' => Some(Exponent)
    case 'E' => Some(Exponent)
    case '.' => Some(Dot)
    case ':' => Some(Colon)
    case _ => None
  }

  /** One character of an escape sequence inside a string (lexer.rs:92-140):
      a hex digit of a `\u` escape, or the character after a backslash. */
  function InEscape(s: LexState, text: string, c: char): (r: Emit)
    requires Inv(s) && !s.halted
    requires s.current == Some(StringLiteral(text))
    requires s.hexDigits > 0 || s.expectEscape
    ensures Inv(r.state)
  {
    if s.hexDigits > 0 then
      if IsHexDigit(c) then
        Emit(s.(hexDigits := s.hexDigits - 1, current := Some(StringLiteral(text + [c])), info := Grow(s.info)), [])
      else Halt(s, BadHexDigit(c), None)
    else
      var s1 := s.(expectEscape := false);
      if IsSimpleEscape(c) then
        Emit(s1.(current := Some(StringLiteral(text + [c])), info := Grow(s.info)), [])
      else if c == 'u' then
        Emit(s1.(current := Some(StringLiteral(text + [c])), info := Grow(s.info), hexDigits := 4), [])
      else Halt(s1, UnsupportedEscape(c), None)
  }

  /** One character while a string token is open (lexer.rs:91-172). */
  function InString(s: LexState, text: string, c: char): (r: Emit)
    requires Inv(s) && !s.halted
    requires s.current == Some(StringLiteral(text))
    ensures Inv(r.state)
  {
    if s.hexDigits > 0 || s.expectEscape then InEscape(s, text, c)
    else if IsDoubleQuote(c) then
      var info := Grow(s.info);
      Emit(s.(current := None, info := info.(start := info.start + info.length)),
           [(StringLiteral(text + [c]), info)])
    else if IsLinefeed(c) || IsCarriageReturn(c) then
      Halt(s, MultiLineString, None)
    else if IsBackslash(c) then
      Emit(s.(expectEscape := true, current := Some(StringLiteral(text + [c])), info := Grow(s.info)), [])
    else
      Emit(s.(current := Some(StringLiteral(text + [c])), info := Grow(s.info)), [])
  }

  /** One character while an integer is open (lexer.rs:173-187): a digit
      extends it, anything else sends it and is then read afresh. */
  function InInteger(s: LexState, digits: string, c: char): (r: Emit)
    requires Inv(s) && !s.halted
    requires s.current == Some(Integer(digits))
    ensures Inv(r.state)
  {
    if IsDigit(c) then
      Emit(s.(current := Some(Integer(digits + [c])), info := Grow(s.info)), [])
    else
      var flushed := s.(current := None,
                        info := s.info.(start := s.info.start + s.info.length, length := 0));
      var rest := Fresh(flushed, c);
      Emit(rest.state, [(Integer(digits), s.info)] + rest.tokens)
  }

  /** A character with no token open, or a keyword open (lexer.rs:188-331). */
  function Fresh(s: LexState, c: char): (r: Emit)
    requires Inv(s) && !s.halted
    requires s.current.None? || IsKeyword(s.current.value)
    ensures Inv(r.state)
  {
    if s.expectLinefeed && IsLinefeed(c) then
      // the `\n` of a CRLF pair; the flag stays set
      Emit(s.(info := s.info.(start := s.info.start + 1)), [])
    else
      var s1 := s.(expectLinefeed := false);
      if |s1.expected| > 0 then
        if s1.expected[0] == c then
          if |s1.expected| == 1 then
            Emit(s1.(expected := "", current := None,
                     info := s1.info.(start := s1.info.start + s1.info.length, charPosition := s1.info.charPosition + 1)),
                 [(s1.current.value, s1.info)])
          else
            Emit(s1.(expected := s1.expected[1..], info := s1.info.(charPosition := s1.info.charPosition + 1)), [])
        else Halt(s1, UnrecognizedToken, Some(""))
      else if c == 'f' then
        Emit(s1.(expected := "alse", current := Some(FalseLiteral),
                 info := s1.info.(length := 5, charPosition := s1.info.charPosition + 1)), [])
      else if c == 't' then
        Emit(s1.(expected := "rue", current := Some(TrueLiteral),
                 info := s1.info.(length := 4, charPosition := s1.info.charPosition + 1)), [])
      else if c == 'n' then
        Emit(s1.(expected := "ull", current := Some(NullLiteral),
                 info := s1.info.(length := 4, charPosition := s1.info.charPosition + 1)), [])
      else Simple(s1, c)
  }

  /** Start of a string, whitespace, a single-character token, the first digit
      of an integer, or an unexpected character (lexer.rs:251-331). */
  function Simple(s: LexState, c: char): (r: Emit)
    requires Inv(s) && !s.halted && s.current.None? && !s.expectLinefeed
    ensures Inv(r.state)
  {
    if c == '"' then
      Emit(s.(current := Some(StringLiteral("\"")),
              info := s.info.(charPosition := s.info.charPosition + 1, length := 1)), [])
    else if c == '\r' then
      Emit(s.(expectLinefeed := true,
              info := s.info.(lineNumber := s.info.lineNumber + 1, charPosition := 1, start := s.info.start + 1)), [])
    else if c == '\n' then
      Emit(s.(info := s.info.(lineNumber := s.info.lineNumber + 1, charPosition := 1, start := s.info.start + 1)), [])
    else if c == ' ' || c == '\t' then
      Emit(s.(info := s.info.(charPosition := s.info.charPosition + 1, start := s.info.start + 1)), [])
    else if SimpleToken(c).Some? then
      var info := s.info.(length := 1, charPosition := s.info.charPosition + 1);
      Emit(s.(current := None, info := info.(start := info.start + 1, length := 0)),
           [(SimpleToken(c).value, info)])
    else if IsDigit(c) then
      Emit(s.(current := Some(Integer([c])), info := Grow(s.info)), [])
    else Halt(s, UnexpectedCharacter(c), None)
  }

  /** One character of input: the body of the inner loop of `lex`. A halted
      machine ignores its input. */
  function Step(s: LexState, c: char): (r: Emit)
    requires Inv(s)
    ensures Inv(r.state)
    ensures s.halted ==> r == Emit(s, [])
  {
    if s.halted then Emit(s, [])
    else if s.current.Some? && s.current.value.StringLiteral? then InString(s, s.current.value.text, c)
    else if s.current.Some? && s.current.value.Integer? then InInteger(s, s.current.value.digits, c)
    else Fresh(s, c)
  }

  /** What `lex` sends after its input ends (lexer.rs:335-358): a pending
      integer, or the empty-source error when the cursor never moved. A
      pending string or keyword is dropped. */
  function Finish(s: LexState): seq<TokenPair> {
    if s.halted then []
    else if s.current.Some? && s.current.value.Integer? then [(s.current.value, s.info)]
    else if s.info.lineNumber == 1 && s.info.charPosition == 1 then
      [(Error(ErrorInfo(EmptySource, None)), s.info)]
    else []
  }

  /** The machine run over a whole string, character by character. */
  function Run(s: LexState, input: string): (r: Emit)
    requires Inv(s)
    ensures Inv(r.state)
    decreases |input|
  {
    if |input| == 0 then Emit(s, [])
    else
      var e := Step(s, input[0]);
      var rest := Run(e.state, input[1..]);
      Emit(rest.state, e.tokens + rest.tokens)
  }

  /** Everything `lex` sends for the given logical input. */
  function LexAll(input: string): seq<TokenPair> {
    var e := Run(Init, input);
    e.tokens + Finish(e.state)
  }

  /** The logical input: the chunks in order, boundaries forgotten.
      `ConcatCons` and `ConcatSplit` read it from the front and at any cut. */
  function Concat(chunks: seq<string>): string
    decreases |chunks|
  {
    if |chunks| == 0 then []
    else Concat(chunks[..|chunks| - 1]) + chunks[|chunks| - 1]
  }

  /** The same text read from the front: the first chunk, then the others. */
  lemma {:induction false} ConcatCons(chunks: seq<string>)
    requires |chunks| > 0
    ensures Concat(chunks) == chunks[0] + Concat(chunks[1..])
    decreases |chunks|
  {
    var n := |chunks| - 1;
    if n == 0 {
      assert chunks[..0] == [] && chunks[1..] == [];
    } else {
      var init, tail := chunks[..n], chunks[1..];
      ConcatCons(init);
      assert init[1..] == tail[..n - 1] && tail[n - 1] == chunks[n] && init[0] == chunks[0];
      assert Concat(tail) == Concat(tail[..n - 1]) + tail[n - 1];
    }
  }

  /** Running over `a + b` is running over `a`, then over `b` from where `a`
      left off: the machine's whole state is carried between characters, so
      where the input is cut into chunks makes no difference. */
  lemma {:induction false} RunAppend(s: LexState, a: string, b: string)
    requires Inv(s)
    ensures Run(s, a + b).state == Run(Run(s, a).state, b).state
    ensures Run(s, a + b).tokens == Run(s, a).tokens + Run(Run(s, a).state, b).tokens
    decreases |a|
  {
    if |a| == 0 {
      assert a + b == b;
    } else {
      assert (a + b)[0] == a[0];
      assert (a + b)[1..] == a[1..] + b;
      var e := Step(s, a[0]);
      RunAppend(e.state, a[1..], b);
      var x := Run(e.state, a[1..]);
      AppendAssoc(e.tokens, x.tokens, Run(x.state, b).tokens);
    }
  }

  /** Reading one more character is one more `Step`. */
  lemma {:induction false} RunSnoc(s: LexState, a: string, c: char)
    requires Inv(s)
    ensures Run(s, a + [c]).state == Step(Run(s, a).state, c).state
    ensures Run(s, a + [c]).tokens == Run(s, a).tokens + Step(Run(s, a).state, c).tokens
  {
    RunAppend(s, a, [c]);
    var x := Run(s, a).state;
    assert [c][1..] == [];
    assert Run(x, [c]).tokens == Step(x, c).tokens + [];
  }

  /** After `lex` has returned, further input has no effect. */
  lemma {:induction false} RunHalted(s: LexState, input: string)
    requires Inv(s) && s.halted
    ensures Run(s, input) == Emit(s, [])
    decreases |input|
  {
    if |input| > 0 {
      RunHalted(Step(s, input[0]).state, input[1..]);
    }
  }

  /** Once `prefix + rest[..j]` has been read, either all of `rest` was read
      or the machine had halted; either way the remainder changes nothing. */
  lemma {:induction false} SkipRest(s: LexState, prefix: string, rest: string, j: nat)
    requires Inv(s) && j <= |rest|
    requires j == |rest| || Run(s, prefix + rest[..j]).state.halted
    ensures Run(s, prefix + rest) == Run(s, prefix + rest[..j])
  {
    var read := prefix + rest[..j];
    if j < |rest| {
      assert prefix + rest == read + rest[j..];
      RunAppend(s, read, rest[j..]);
      RunHalted(Run(s, read).state, rest[j..]);
    } else {
      assert rest[..j] == rest;
    }
  }

  lemma {:induction false} ConcatSplit(chunks: seq<string>, i: nat)
    requires i <= |chunks|
    ensures Concat(chunks) == Concat(chunks[..i]) + Concat(chunks[i..])
    decreases |chunks|
  {
    if i == 0 {
      assert chunks[..0] == [] && chunks[0..] == chunks;
    } else {
      var tail, front := chunks[1..], chunks[..i];
      ConcatSplit(tail, i - 1);
      ConcatCons(chunks);
      ConcatCons(front);
      assert tail[i - 1..] == chunks[i..];
      assert front[0] == chunks[0] && front[1..] == tail[..i - 1];
      var a, b := Concat(tail[..i - 1]), Concat(chunks[i..]);
      assert Concat(tail) == a + b;
      assert Concat(front) == chunks[0] + a;
      assert Concat(chunks) == chunks[0] + (a + b);
    }
  }

  lemma InEscapeTransition(s: LexState, text: string, c: char)
    requires Inv(s) && !s.halted
    requires s.current == Some(StringLiteral(text))
    requires s.hexDigits > 0 || s.expectEscape
    ensures Transition(s, InEscape(s, text, c))
  {
  }

  lemma InStringTransition(s: LexState, text: string, c: char)
    requires Inv(s) && !s.halted
    requires s.current == Some(StringLiteral(text))
    ensures Transition(s, InString(s, text, c))
  {
    if s.hexDigits > 0 || s.expectEscape {
      InEscapeTransition(s, text, c);
    }
  }

  lemma SimpleTransition(s: LexState, c: char)
    requires Inv(s) && !s.halted && s.current.None? && !s.expectLinefeed
    ensures Transition(s, Simple(s, c))
  {
  }

  lemma FreshTransition(s: LexState, c: char)
    requires Inv(s) && !s.halted
    requires s.current.None? || IsKeyword(s.current.value)
    ensures Transition(s, Fresh(s, c))
  {
    if !(s.expectLinefeed && IsLinefeed(c)) {
      var s1 := s.(expectLinefeed := false);
      if |s1.expected| == 0 && c != 'f' && c != 't' && c != 'n' {
        SimpleTransition(s1, c);
      }
    }
  }

  /** Sending the open integer ahead of a transition from the flushed state
      is itself a transition. */
  lemma FlushTransition(s: LexState, digits: string, rest: Emit)
    requires Inv(s) && !s.halted
    requires s.current == Some(Integer(digits))
    requires Transition(s.(current := None,
                           info := s.info.(start := s.info.start + s.info.length, length := 0)), rest)
    ensures Transition(s, Emit(rest.state, [(Integer(digits), s.info)] + rest.tokens))
  {
    var sent := [(Integer(digits), s.info)];
    StartsConcat(sent, rest.tokens, s.info.start, s.info.start + s.info.length, rest.state.info.start);
    ErrorsConcat(sent, rest.tokens, rest.state.halted);
  }

  lemma InIntegerTransition(s: LexState, digits: string, c: char)
    requires Inv(s) && !s.halted
    requires s.current == Some(Integer(digits))
    ensures Transition(s, InInteger(s, digits, c))
  {
    if !IsDigit(c) {
      var flushed := s.(current := None,
                        info := s.info.(start := s.info.start + s.info.length, length := 0));
      var rest := Fresh(flushed, c);
      assert InInteger(s, digits, c) == Emit(rest.state, [(Integer(digits), s.info)] + rest.tokens);
      FreshTransition(flushed, c);
      FlushTransition(s, digits, rest);
    }
  }

  /** Every step of a running machine keeps the invariant, moves the cursor
      (or halts), never moves `start` backwards, sends tokens in order of
      their starts, and sends an Error token only as its last token, then
      halts. */
  lemma StepTransition(s: LexState, c: char)
    requires Inv(s) && !s.halted
    ensures Transition(s, Step(s, c))
  {
    if s.current.Some? && s.current.value.StringLiteral? {
      InStringTransition(s, s.current.value.text, c);
    } else if s.current.Some? && s.current.value.Integer? {
      InIntegerTransition(s, s.current.value.digits, c);
    } else {
      FreshTransition(s, c);
    }
  }
}
