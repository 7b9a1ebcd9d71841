# hamberder: a verified model of its streaming JSON reader

hamberder reads JSON as a stream and has two stages. The lexer (`lex`)
receives the source text as chunks of characters. It sends a stream of
tokens, each paired with a `TokenInfo`:

- the line;
- the column just past the token. There are two exceptions. A keyword
  carries the column of its last letter, because it is sent before the
  column moves (`false` has column 5). An Error token carries the column
  of the offending character;
- the absolute start offset;
- the length.

The parser (`parse`) reads that token stream. It sends parse events
("tags") such as `BeginObject`, `ObjectKey("version")`, `Number("1.0")`
and `EndArray`, and it reports a problem as an `Error` tag. `hamberder::parse`
joins the two stages with channels.

The project has three layers.

- **Pure specifications.**
  - `LexerSpec` writes `lex` as a state machine. There is one `Step` per
    character, `Run` over a string, and `Finish` when the input ends.
    `LexAll` is everything sent for a whole input.
  - `ParserSpec` writes each parser routine as a function. The function
    takes the token sequence, the tags sent so far and a cursor. It returns
    the tags afterwards, the new cursor and the routine's `Result`.
- **Imperative models in the source's own form.**
  - The class `Lexer.Lexer` holds the locals of `lex` as fields and appends
    tokens to `output`.
  - The class `Parser.Parser` holds the shared token iterator as a cursor
    and appends tags to `sink`.
  - Every method states its whole new state and output. Most are proved
    to agree with the matching specification function. `Lexer.Lexer.Fail`,
    `Lexer.Lexer.FlushInteger`, `Lexer.Lexer.Finish` and
    `Parser.Parser.Send` state their new fields directly.
  - `Lexer.Lex`, `Parser.ParseTokens` and `Pipeline.Parse` run whole inputs.
- **Properties**, proved about the specifications:
  - `LexerProps`: the machine invariant, token order, where errors occur,
    and the exact tokens for keywords, strings, escapes, digits,
    punctuation, whitespace and line breaks.
  - `ParserProps`:
    - once an `Error` tag is sent, only `Error` tags follow;
    - the token stream of any JSON value parses to exactly that value's
      events (`ParseRoundTrip`);
    - each error report, at the token where it is placed.
  - `ParserExamples` and `Pipeline`: worked inputs from the test suite,
    and the empty source.

Several behaviours are modelled as the code has them, not as a strict JSON
reader would have them:

- The object loop accepts a key where a comma was expected.
- A failure inside an array is reported again by every enclosing array
  or object pair.
- A first token that starts no value produces no tag at all.
- Tokens after the top-level value are ignored. There is one exception.
  A top-level number without an exponent reads one token ahead, and a
  lexer Error there is sent instead of the `Number` tag.
- `\r\n\n` counts as a single line break.
- The `length` of an integer inherits a stale length left by a preceding
  string or keyword.
- Input that ends inside a string or keyword sends nothing.
- An exponent marker followed by neither sign nor digits is reported with
  the `DigitsAfterMinus` message.

## Model

| member | source | states |
|---|---|---|
| Tokens.IsDigit | src/lexer.rs:58-69 | holds exactly for the ten ASCII digits |
| Tokens.Text | src/parser.rs:41-602 | no ensures: the wording of each error message, the same as the text the parser sends here and the lexer sends at src/lexer.rs:106-351 |
| Tokens.IsCarriageReturn | src/lexer.rs:42-44 | no ensures: holds exactly for `\r` |
| Tokens.IsLinefeed | src/lexer.rs:46-48 | no ensures: holds exactly for `\n` |
| Tokens.IsDoubleQuote | src/lexer.rs:50-52 | no ensures: holds exactly for `"` |
| Tokens.IsBackslash | src/lexer.rs:54-56 | no ensures: holds exactly for `\` |
| Tokens.IsSimpleEscape | src/lexer.rs:118 | no ensures: the eight characters that may follow a backslash as they stand; `LexerProps.EscapedStep` states what each does |
| Tokens.IsHexDigit | src/lexer.rs:95-97 | holds exactly for `0-9`, `a-f` and `A-F`, in any case |
| LexerSpec.SimpleToken | src/lexer.rs:285-295 | a single-character token is never a keyword and never an Error |
| LexerSpec.InEscape | src/lexer.rs:92-140 | a hex digit or escaped character keeps the machine invariant |
| LexerSpec.InString | src/lexer.rs:91-172 | a character inside an open string keeps the machine invariant |
| LexerSpec.InInteger | src/lexer.rs:173-187 | a character after digits keeps the machine invariant |
| LexerSpec.Fresh | src/lexer.rs:188-331 | a character with no token, or a keyword, open keeps the machine invariant |
| LexerSpec.Simple | src/lexer.rs:251-331 | a character between tokens keeps the machine invariant |
| LexerSpec.Step | src/lexer.rs:91-331 | one character keeps the invariant; after `lex` has returned a character changes nothing |
| LexerSpec.Run | src/lexer.rs:90-332 | the invariant holds after any input |
| LexerSpec.RunAppend | src/lexer.rs:89-90 | reading `a + b` is reading `a` and then `b` from where `a` stopped: cutting the input into chunks changes nothing |
| LexerSpec.RunSnoc | src/lexer.rs:90-332 | one more character is one more `Step`, its tokens appended |
| LexerSpec.RunHalted | src/lexer.rs:318-330 | once `lex` has returned, further input sends nothing and changes nothing |
| LexerSpec.SkipRest | src/lexer.rs:212-224 | input after the point where `lex` returned is ignored |
| LexerSpec.ConcatCons | src/lexer.rs:89-90 | the text of the chunks is the first chunk followed by the text of the others |
| LexerSpec.ConcatSplit | src/lexer.rs:89-90 | the text of the chunks is the text of the first `i` chunks followed by the rest |
| LexerSpec.InEscapeTransition | src/lexer.rs:92-140 | an escape step keeps the invariant and token order; an Error is sent last and then halts |
| LexerSpec.InStringTransition | src/lexer.rs:141-172 | the same for a string step |
| LexerSpec.SimpleTransition | src/lexer.rs:251-331 | the same for a step between tokens |
| LexerSpec.FreshTransition | src/lexer.rs:188-249 | the same for a CRLF or keyword step |
| LexerSpec.FlushTransition | src/lexer.rs:179-187 | sending the open integer before a step keeps the token starts in order |
| LexerSpec.InIntegerTransition | src/lexer.rs:173-187 | the same for a step after digits |
| LexerSpec.Halt | src/lexer.rs:318-330 | no ensures: sends one Error at the current position and marks `lex` as returned, as every error branch of `lex` does; `LexerSpec.StepTransition` and `LexerProps.ErrorIsLast` prove that nothing follows it |
| LexerSpec.Finish | src/lexer.rs:335-358 | no ensures: its behaviour is proved by `LexerProps.EmptyInput`, `LexerProps.IntegerAtEnd`, `LexerProps.StringCutOff` and `LexerProps.KeywordCutOff` |
| LexerSpec.LexAll | src/lexer.rs:71-360 | no ensures: `Lexer.Lex` is proved equal to it, and `LexerProps.ErrorIsLast`, `LexerProps.StartsNondecreasing` and `LexerProps.StringTokensQuoted` state its properties |
| LexerSpec.StepTransition | src/lexer.rs:91-331 | every step keeps the invariant, never moves `start` back, sends tokens in start order, halts right after an Error, and never sends the empty-source error |
| Lexer.Lexer.constructor | src/lexer.rs:77-88 | the locals of `lex` start at line 1, column 1, offset 0, with nothing open |
| Lexer.Lexer.Fail | src/lexer.rs:318-330 | sends one Error at the current position and stops |
| Lexer.Lexer.Step | src/lexer.rs:91-331 | the new fields and output are those of `LexerSpec.Step` |
| Lexer.Lexer.StepEscape | src/lexer.rs:92-140 | the new fields and output are those of `LexerSpec.InEscape` |
| Lexer.Lexer.StepHexDigit | src/lexer.rs:92-114 | a hex-digit step agrees with `LexerSpec.InEscape` |
| Lexer.Lexer.StepEscapedChar | src/lexer.rs:115-140 | a character after a backslash agrees with `LexerSpec.InEscape` |
| Lexer.Lexer.StepString | src/lexer.rs:141-172 | the new fields and output are those of `LexerSpec.InString` |
| Lexer.Lexer.StepInteger | src/lexer.rs:173-187 | the new fields and output are those of `LexerSpec.InInteger` |
| Lexer.Lexer.FlushInteger | src/lexer.rs:180-185 | sends the open integer, moves `start` past it and resets `length` |
| Lexer.Lexer.StepFresh | src/lexer.rs:188-331 | the new fields and output are those of `LexerSpec.Fresh` |
| Lexer.Lexer.StepSimple | src/lexer.rs:251-331 | the new fields and output are those of `LexerSpec.Simple` |
| Lexer.Lexer.Feed | src/lexer.rs:90-332 | a whole chunk agrees with `LexerSpec.Run` |
| Lexer.Lexer.Finish | src/lexer.rs:335-358 | the end of input sends what `LexerSpec.Finish` sends, closes an open integer and stops `lex`; no other field changes and the invariant holds |
| Lexer.Lex | src/lexer.rs:71-360 | the tokens sent for the chunks are `LexAll` of their concatenation |
| LexerProps.RunCons | src/lexer.rs:90-332 | reading `c` and then `rest` is one `Step` followed by a `Run` |
| LexerProps.RunOne | src/lexer.rs:90-332 | reading one character is one `Step` |
| LexerProps.RunTransition | src/lexer.rs:89-332 | a whole run keeps every property of `StepTransition` |
| LexerProps.StringStepQuoted | src/lexer.rs:141-172 | an open string keeps its opening quote, and a string is only sent with its closing quote |
| LexerProps.FreshStepQuoted | src/lexer.rs:253-266 | a string is opened with its quote |
| LexerProps.StepQuoted | src/lexer.rs:91-331 | every step keeps string tokens quoted |
| LexerProps.IntegerStepQuoted | src/lexer.rs:173-187 | a step after digits keeps string tokens quoted |
| LexerProps.RunQuoted | src/lexer.rs:89-332 | every run keeps string tokens quoted |
| LexerProps.StringTokensQuoted | src/lexer.rs:141-151 | every string token `lex` sends starts and ends with `"` |
| LexerProps.ErrorIsLast | src/lexer.rs:71-360 | an Error token can only be the last token sent |
| LexerProps.StartsNondecreasing | src/lexer.rs:71-360 | token starts never decrease along the token stream |
| LexerProps.EmptyInput | src/lexer.rs:346-358 | empty input sends exactly "Source cannot be empty" at line 1, column 1 |
| LexerProps.EmptySourceIffEmpty | src/lexer.rs:346-358 | that error is sent if and only if the input is empty |
| LexerProps.KeywordToken | src/lexer.rs:228-249 | each of `false`, `true` and `null` maps to a keyword token |
| LexerProps.KeywordStart | src/lexer.rs:228-249 | the first letter opens the keyword, expects the other letters and sets `length` to the keyword's length |
| LexerProps.PendingPrefix | src/lexer.rs:208-210 | matching letters of an open keyword only move the column |
| LexerProps.PendingComplete | src/lexer.rs:199-211 | the last letter sends the keyword at that letter's column and moves `start` past it |
| LexerProps.KeywordRest | src/lexer.rs:199-227 | the remaining letters complete the keyword token |
| LexerProps.KeywordLexes | src/lexer.rs:199-249 | a whole keyword is one token with its start and length; `length` then stays stale |
| LexerProps.PrefixAfter | src/lexer.rs:199-227 | the first `k` letters leave the rest of the keyword expected |
| LexerProps.MismatchAfter | src/lexer.rs:211-225 | a wrong letter after the first sends one Error and halts |
| LexerProps.KeywordCutOff | src/lexer.rs:335-358 | input that ends inside a keyword sends nothing |
| LexerProps.MismatchStep | src/lexer.rs:211-225 | a wrong keyword letter sends "Unrecognized token" with an empty fragment and halts |
| LexerProps.KeywordMismatch | src/lexer.rs:211-225 | any keyword prefix followed by a wrong letter sends that Error at the wrong letter's column, with the keyword's length |
| LexerProps.OpenQuoteStep | src/lexer.rs:253-266 | `"` between tokens opens a string of length 1 |
| LexerProps.PlainStep | src/lexer.rs:167-171 | an ordinary character is pushed onto the open string |
| LexerProps.BackslashStep | src/lexer.rs:162-166 | a backslash is pushed and an escape is expected |
| LexerProps.EscapedStep | src/lexer.rs:115-140 | a simple escape is pushed; `u` expects four hex digits; anything else sends "Unsupported escaped character" and halts |
| LexerProps.HexStep | src/lexer.rs:92-114 | a hex digit is pushed; anything else sends the hex-digit Error and halts |
| LexerProps.CloseQuoteStep | src/lexer.rs:141-150 | `"` sends the string with its closing quote and moves `start` past it |
| LexerProps.HexRun | src/lexer.rs:92-114 | expected hex digits are pushed one by one |
| LexerProps.BodyRun | src/lexer.rs:91-172 | an accepted string body is pushed as it stands, escapes included, and nothing is sent |
| LexerProps.EscapeRun | src/lexer.rs:115-140 | a body that starts with an escape sequence is pushed as it stands |
| LexerProps.HexTail | src/lexer.rs:92-114 | the four digits of `\u` and the rest of the body are pushed |
| LexerProps.NewlineStep | src/lexer.rs:151-161 | a raw line break inside a string sends "Multi-line strings are not allowed" and halts |
| LexerProps.OpenString | src/lexer.rs:253-265 | a quote and an accepted body leave the string open |
| LexerProps.StringLexes | src/lexer.rs:141-151 | a quoted string is one token whose text is the raw input, quotes and escapes included, and whose length is that text's length |
| LexerProps.NewlineInString | src/lexer.rs:151-161 | a line break after any accepted body sends the multi-line Error at its position and halts |
| LexerProps.BadEscapeInString | src/lexer.rs:129-137 | a bad escape after any accepted body sends the escape Error at its position and halts |
| LexerProps.OpenUnicode | src/lexer.rs:123-128 | `\u` expects four hex digits |
| LexerProps.HexThenBad | src/lexer.rs:92-111 | fewer hex digits than expected, then a non-hex character, sends the hex-digit Error and halts |
| LexerProps.BadHexInString | src/lexer.rs:103-111 | a short `\u` escape inside any accepted string sends that Error at its position |
| LexerProps.StringCutOff | src/lexer.rs:335-358 | input that ends inside a string sends nothing |
| LexerProps.BlankStep | src/lexer.rs:280-284 | a space or tab moves the column and `start` by one |
| LexerProps.BlanksRun | src/lexer.rs:280-284 | spaces and tabs send nothing and move the column and `start` by their number |
| LexerProps.BlankInput | src/lexer.rs:346-358 | input of only spaces and tabs sends nothing, not even the empty-source error |
| LexerProps.LinefeedStep | src/lexer.rs:274-278 | `\n` starts a new line at column 1 |
| LexerProps.CarriageReturnStep | src/lexer.rs:267-272 | `\r` starts a new line and expects a possible `\n` |
| LexerProps.AbsorbedLinefeedStep | src/lexer.rs:188-198 | a `\n` after `\r` only moves `start` and leaves the flag set |
| LexerProps.CrLf | src/lexer.rs:188-198 | `\r\n` is one line break |
| LexerProps.CrLfLf | src/lexer.rs:188-198 | `\r\n\n` is also one line break, because the flag stays set |
| LexerProps.UnexpectedStep | src/lexer.rs:317-330 | between tokens, any character that starts no token, breaks no line and is no blank sends "Encountered an unexpected character" at the current position, with no fragment, and `lex` returns |
| LexerProps.UnexpectedFirst | src/lexer.rs:317-330 | input that starts with such a character sends only that Error, at line 1, column 1, whatever follows |
| LexerProps.UnexpectedAt | src/lexer.rs:317-330 | `@` sends that Error at line 1, column 1 |
| LexerProps.BlankAfterCrLf | src/lexer.rs:188-198 | a blank after `\r\n` clears the pending linefeed and moves the column and `start` by one |
| LexerProps.PaddedNullRun | src/lexer.rs:199-284 | blanks, `null` and a blank from any idle position give one NullLiteral at the column of its last letter |
| LexerProps.PaddedNullInput | src/lexer.rs:199-284 | the same from the start of the input, with nothing more sent at the end |
| LexerProps.PaddedNull | tests/test_lexer.rs:108-126 | `   null ` is one NullLiteral at line 1, column 7, start 3, length 4 |
| LexerProps.TwoBreaksRun | src/lexer.rs:188-284 | `\n`, `\r\n` and a blank move to line 3, column 2, start 4, sending nothing |
| LexerProps.LineNumbersInput | src/lexer.rs:188-284 | after those two line breaks, blanks, `null` and a blank give one NullLiteral on line 3 |
| LexerProps.LineNumbers | tests/test_lexer.rs:129-147 | `\n\r\n   null ` is one NullLiteral at line 3, column 7, start 6, length 4 |
| LexerProps.FirstDigitStep | src/lexer.rs:310-316 | a digit between tokens opens an integer |
| LexerProps.DigitStep | src/lexer.rs:174-178 | a digit extends the open integer |
| LexerProps.DigitsExtend | src/lexer.rs:173-178 | more digits extend the open integer |
| LexerProps.DigitsRun | src/lexer.rs:310-316 | a digit run opens one integer with all of it; `length` grows from its stale value |
| LexerProps.IntegerAtEnd | src/lexer.rs:338-344 | a digit run at the end of input is sent as one integer |
| LexerProps.SimpleStep | src/lexer.rs:298-307 | a punctuation character is one token of length 1 |
| LexerProps.IntegerThenPunctuation | src/lexer.rs:179-187 | the character after a digit run is read afresh after the integer is sent |
| LexerProps.IntegerEndStep | src/lexer.rs:179-187 | punctuation after digits sends the integer, then the punctuation token |
| LexerProps.PunctuatedAt | src/lexer.rs:298-307 | the `i`th token of a punctuation run is the `i`th character's, at its column and offset |
| LexerProps.PunctuationRun | src/lexer.rs:285-307 | each punctuation character is its own token; afterwards `length` is 0 |
| LexerProps.FalseInput | tests/test_lexer.rs:22-40 | `false` is one FalseLiteral at line 1, column 5, start 0, length 5 |
| LexerProps.ChunkedNull | tests/test_lexer.rs:85-105 | `null` sent as `nu`, `l`, `l` is one NullLiteral at column 4 |
| LexerProps.TrueThenDigit | src/lexer.rs:310-316 | in `true1` the integer inherits the keyword's length and reports length 5 |
| LexerProps.ElevenPunctuation | tests/test_lexer.rs:350-358 | `-+{}[].e,:E` gives eleven tokens, each of length 1 |
| ParserSpec.StripStringQuotes | src/parser.rs:30-39 | the result is the text with its first and last characters removed |
| ParserSpec.RequireInteger | src/parser.rs:331-337 | gives the digits if and only if the token is an integer |
| ParserSpec.Strippable | src/parser.rs:30-39 | no ensures: a string token has at least the two quote characters, the condition under which `strip_string_quotes` does not panic (counted in characters; see "Left out") |
| ParserSpec.StartsValue | src/parser.rs:567-602 | no ensures: the tokens `try_value` accepts as the first token of a value; `ParserProps.FirstToken` and `ParserProps.NoValue` state both sides |
| ParserSpec.Fail | src/parser.rs:396-405 | no ensures: sends one Error tag with no fragment and aborts, as `error_sender` followed by `return Err(())` does; `ParserProps.FailSettles` proves it ends the run aborted |
| ParserSpec.EndInfo | src/parser.rs:371-376 | no ensures: the position just past the last token; `ParserSpec.RequireNext` states that end of stream is reported there |
| ParserSpec.NextToken | src/parser.rs:344-356 | end of stream gives `Ok(None)`; a lexer Error is relayed as an Error tag and gives `Err`; any other token is returned |
| ParserSpec.RequireNext | src/parser.rs:360-390 | a token is returned if and only if one exists and is not an Error; end of stream is reported just past the last token |
| ParserSpec.StringTag | src/parser.rs:314-329 | a string token, and only one, gives a string tag with its quotes stripped |
| ParserSpec.LiteralTag | src/parser.rs:551-565 | each keyword token, and only those, gives its own tag |
| ParserSpec.Emit | src/parser.rs:408-411 | no ensures: sends one `Number` tag and reports a match; `ParserProps.NumberParsed` proves the tag holds the number's reassembled text |
| ParserSpec.ExponentDigits | src/parser.rs:526-533 | no ensures: `ParserProps.PowerParsed` proves that digits complete the number, and `ParserProps.ExponentRejected` that anything else sends `DigitsAfterMinus` |
| ParserSpec.ExponentPart | src/parser.rs:482-548 | the cursor stays in the stream; a handed-back token is the one just read; success means a number was recognised |
| ParserSpec.Fraction | src/parser.rs:441-481 | the same, for the part after the integer digits |
| ParserSpec.NumberValue | src/parser.rs:392-549 | a token other than `-` or digits is not a number and changes nothing |
| ParserSpec.Value | src/parser.rs:567-602 | the cursor stays in the stream; a handed-back token is the one just read |
| ParserSpec.Scalar | src/parser.rs:583-601 | the same for a string, keyword or number |
| ParserSpec.Object | src/parser.rs:93-203 | gives `Ok(false)`, with nothing changed, if and only if the token is not `{` |
| ParserSpec.ObjectLoop | src/parser.rs:102-189 | the object loop only ends successfully with `Ok(true)` |
| ParserSpec.ObjectAdvance | src/parser.rs:190-196 | the same after loading the next token |
| ParserSpec.KvPair | src/parser.rs:41-91 | a matched pair consumed at least a colon and a value; a handed-back token is the one just read |
| ParserSpec.KvValue | src/parser.rs:52-78 | a matched value consumed at least one token; a handed-back token is the one just read |
| ParserSpec.Array | src/parser.rs:205-312 | gives `Ok(false)`, with nothing changed, if and only if the token is not `[` |
| ParserSpec.ArrayLoop | src/parser.rs:214-298 | the array loop only ends successfully with `Ok(true)` |
| ParserSpec.ArrayItem | src/parser.rs:261-296 | success means a value was recognised; a handed-back token is the one just read |
| ParserSpec.ArrayAdvance | src/parser.rs:299-305 | the array loop only ends successfully with `Ok(true)` after loading the next token |
| ParserSpec.Parse | src/parser.rs:604-622 | no ensures: `Parser.ParseTokens` is proved equal to it; `ParserProps.ParseStart`, `ParserProps.TopLevel`, `ParserProps.ErrorsAreFinal` and `ParserProps.ParseRoundTrip` state its behaviour |
| Parser.Parser.constructor | src/parser.rs:604-606 | the cursor is at the first token and no tag has been sent |
| Parser.Parser.Send | src/parser.rs:46-47 | appends exactly one tag to the channel |
| Parser.Parser.TryNextToken | src/parser.rs:344-356 | result, cursor and tags are those of `ParserSpec.NextToken` |
| Parser.Parser.RequireNextToken | src/parser.rs:360-390 | result, cursor and tags are those of `ParserSpec.RequireNext` |
| Parser.Parser.RequireObjectKvPair | src/parser.rs:41-91 | result, cursor and tags are those of `ParserSpec.KvPair` |
| Parser.Parser.TryObject | src/parser.rs:93-203 | result, cursor and tags are those of `ParserSpec.Object` |
| Parser.Parser.TryArray | src/parser.rs:205-312 | result, cursor and tags are those of `ParserSpec.Array` |
| Parser.Parser.TryArrayItem | src/parser.rs:261-296 | result, cursor and tags are those of `ParserSpec.ArrayItem` |
| Parser.Parser.TryNumber | src/parser.rs:392-549 | result, cursor and tags are those of `ParserSpec.NumberValue` |
| Parser.Parser.TryFraction | src/parser.rs:441-481 | result, cursor and tags are those of `ParserSpec.Fraction` |
| Parser.Parser.TryExponent | src/parser.rs:482-548 | result, cursor and tags are those of `ParserSpec.ExponentPart` |
| Parser.Parser.TryValue | src/parser.rs:567-602 | result, cursor and tags are those of `ParserSpec.Value` |
| Parser.Parser.TryScalar | src/parser.rs:583-601 | result, cursor and tags are those of `ParserSpec.Scalar` |
| Parser.ParseTokens | src/parser.rs:604-622 | the tags sent for a token stream are `ParserSpec.Parse` of it |
| ParserProps.FailSettles | src/parser.rs:153-163 | an error report adds at least one tag and ends the run aborted |
| ParserProps.NextSettles | src/parser.rs:344-356 | pulling a token keeps the tags settled: clean on success, aborted on `Err` |
| ParserProps.RequireSettles | src/parser.rs:360-390 | the same for a required token |
| ParserProps.ExponentSettles | src/parser.rs:482-548 | the exponent part keeps the tags settled |
| ParserProps.FractionSettles | src/parser.rs:441-481 | the fraction part keeps the tags settled |
| ParserProps.NumberSettles | src/parser.rs:392-549 | `try_number` keeps the tags settled |
| ParserProps.ScalarSettles | src/parser.rs:583-601 | a string, keyword or number keeps the tags settled |
| ParserProps.ValueSettles | src/parser.rs:567-602 | `try_value` keeps the tags settled |
| ParserProps.ObjectSettles | src/parser.rs:93-203 | `try_object` keeps the tags settled; `Err` always sent something |
| ParserProps.ObjectLoopSettles | src/parser.rs:102-189 | each turn of the object loop keeps the tags settled |
| ParserProps.ObjectAdvanceSettles | src/parser.rs:190-196 | loading the next object token keeps the tags settled |
| ParserProps.KvPairSettles | src/parser.rs:41-91 | a pair keeps the tags settled; a failed pair sent something |
| ParserProps.KvValueSettles | src/parser.rs:52-78 | a pair's value keeps the tags settled |
| ParserProps.ArraySettles | src/parser.rs:205-312 | `try_array` keeps the tags settled; `Err` always sent something |
| ParserProps.ArrayLoopSettles | src/parser.rs:214-298 | each turn of the array loop keeps the tags settled |
| ParserProps.ArrayItemSettles | src/parser.rs:261-296 | an array item keeps the tags settled |
| ParserProps.ArrayAdvanceSettles | src/parser.rs:299-305 | loading the next array token keeps the tags settled |
| ParserProps.ErrorsAreFinal | src/parser.rs:604-622 | for any token stream, no ordinary tag follows an Error tag, and a run with an Error ends on one |
| ParserProps.Quoted | src/parser.rs:30-39 | quoting adds exactly two characters |
| ParserProps.StripQuoted | src/parser.rs:30-39 | stripping the quotes of a quoted text gives the text back |
| ParserProps.FirstToken | src/parser.rs:567-602 | every value's first token is one `try_value` recognises |
| ParserProps.PowerParsed | src/parser.rs:482-548 | `E`, an optional sign and digits are appended to the number text as `E`, the sign and the digits |
| ParserProps.FractionParsed | src/parser.rs:441-481 | the fraction and exponent are reassembled; without an exponent, the token after the number is handed back |
| ParserProps.NumberParsed | src/parser.rs:392-549 | any number's tokens give its one `Number` tag, with its text reassembled |
| ParserProps.NegativeParsed | src/parser.rs:417-433 | the same for a number with a leading `-` |
| ParserProps.PositiveParsed | src/parser.rs:434-440 | the same for a number without a sign |
| ParserProps.ValueParsed | src/parser.rs:567-602 | any value's tokens give exactly its events, with the cursor after its last token |
| ParserProps.ScalarParsed | src/parser.rs:583-601 | the same for strings, keywords and numbers |
| ParserProps.ScalarValue | src/parser.rs:571-582 | a token other than `{` and `[` falls through to the scalar attempts |
| ParserProps.ItemsHead | src/parser.rs:261-262 | a non-empty item list starts with a token that starts a value |
| ParserProps.MembersHead | src/parser.rs:105-106 | a non-empty pair list starts with the first key's string token |
| ParserProps.ArrayParsed | src/parser.rs:205-312 | any array's tokens give `BeginArray`, its items' events and `EndArray` |
| ParserProps.ItemsParsed | src/parser.rs:214-298 | the array loop over any items sends their events and then `EndArray` |
| ParserProps.LastItem | src/parser.rs:234-247 | the same for a single item, closed by `]` |
| ParserProps.MoreItems | src/parser.rs:216-232 | the same for several items separated by commas |
| ParserProps.ItemTurn | src/parser.rs:261-296 | one item followed by `,` or `]` sends its events and continues the loop |
| ParserProps.ItemPulls | src/parser.rs:286-291 | a token handed back by an item is the next token of the loop |
| ParserProps.ItemEnds | src/parser.rs:299-305 | otherwise the loop loads the next token |
| ParserProps.ItemGives | src/parser.rs:261-296 | a matched item returns what the value returned |
| ParserProps.OpenArray | src/parser.rs:206-211 | `[` sends `BeginArray` and runs the loop |
| ParserProps.CloseArray | src/parser.rs:234-247 | `]` outside the after-comma state sends `EndArray` |
| ParserProps.CommaInArray | src/parser.rs:216-220 | a comma after an item requires a value next |
| ParserProps.ArrayResumes | src/parser.rs:299-305 | loading the next array token hands it to the loop |
| ParserProps.ObjectParsed | src/parser.rs:93-203 | any object's tokens give `BeginObject`, its pairs' events and `EndObject` |
| ParserProps.MembersParsed | src/parser.rs:102-197 | the object loop over any pairs sends their events and then `EndObject` |
| ParserProps.LastMember | src/parser.rs:137-151 | the same for a single pair, closed by `}` |
| ParserProps.MoreMembers | src/parser.rs:119-135 | the same for several pairs separated by commas |
| ParserProps.PairTurn | src/parser.rs:105-118 | one pair followed by `,` or `}` sends the key tag and the value's events |
| ParserProps.PairLayout | src/parser.rs:41-51 | a pair is laid out as a key, a colon and the value; it stands for the key tag followed by the value's events |
| ParserProps.PairValueTurn | src/parser.rs:105-118 | a pair whose value is followed by `,` or `}` continues the loop |
| ParserProps.PairPulls | src/parser.rs:105-118 | a token handed back by a pair is the next token of the loop, whether or not a comma came before the key |
| ParserProps.PairEnds | src/parser.rs:190-196 | otherwise the loop loads the next token, whether or not a comma came before the key |
| ParserProps.PairGives | src/parser.rs:66-78 | a matched pair returns what its value returned |
| ParserProps.PairValue | src/parser.rs:46-54 | a key followed by `:` sends the key tag and goes on to the value |
| ParserProps.OpenObject | src/parser.rs:94-99 | `{` sends `BeginObject` and runs the loop |
| ParserProps.CloseObject | src/parser.rs:137-151 | `}` outside the after-comma state sends `EndObject` |
| ParserProps.CommaInObject | src/parser.rs:119-122 | a comma after a pair requires a pair next |
| ParserProps.ObjectResumes | src/parser.rs:190-196 | loading the next object token hands it to the loop |
| ParserProps.NoValue | src/parser.rs:595-601 | a token that starts no value fails `try_value` and sends nothing |
| ParserProps.ArrayAborts | src/parser.rs:577-580 | an array whose loop fails fails the value, adding nothing |
| ParserProps.ObjectAborts | src/parser.rs:571-574 | an object whose loop fails fails the value, adding nothing |
| ParserProps.ItemRejected | src/parser.rs:263-285 | an item that is not a value is reported once more, at its first token |
| ParserProps.ArrayCommaRejected | src/parser.rs:221-232 | a comma where an item or `]` should be sends `UnexpectedCommaInArray` |
| ParserProps.ObjectCommaRejected | src/parser.rs:123-135 | a comma where a pair or `}` should be sends `UnexpectedCommaInObject` |
| ParserProps.PairOrCurlyRejected | src/parser.rs:175-188 | anything but a key, `,` or `}` after `{` sends `PairOrCurlyExpected` |
| ParserProps.ColonMissing | src/parser.rs:79-89 | a key without `:` sends the key tag, then the error at the token found instead |
| ParserProps.ValueMissing | src/parser.rs:55-65 | a key and `:` with no value report the missing value at the colon, naming the key |
| ParserProps.BracketAfterComma | src/parser.rs:235-245 | `]` right after a comma sends `ValueAfterComma` |
| ParserProps.CommaMissingInArray | src/parser.rs:250-260 | anything but `,` or `]` after an item sends `CommaOrBracketExpected` |
| ParserProps.CurlyAfterComma | src/parser.rs:138-148 | `}` right after a comma sends `PairAfterComma` |
| ParserProps.PairOrCommaRejected | src/parser.rs:153-174 | after a comma, anything but a key or `}` sends `PairExpected`; after a pair, anything but a key, `,` or `}` sends `CommaOrCurlyExpected` |
| ParserProps.MinusRejected | src/parser.rs:417-433 | `-` followed by anything but digits sends `DigitsAfterMinus` at that token |
| ParserProps.DotRejected | src/parser.rs:441-481 | `.` followed by anything but digits sends `FractionDigitsExpected` at the `.` |
| ParserProps.ExponentCutOff | src/parser.rs:505-539 | an exponent marker, with or without a sign, at the end of the stream sends `ExponentDigitsExpected` at the last token |
| ParserProps.ExponentRejected | src/parser.rs:525-533 | an exponent marker followed by neither sign nor digits sends `DigitsAfterMinus` |
| ParserProps.ParseStart | src/parser.rs:604-622 | an empty stream sends nothing; a leading lexer Error is relayed alone |
| ParserProps.ErrorAfterNumber | src/parser.rs:441-446 | an integer followed by a lexer Error sends only that Error, not the `Number` tag |
| ParserProps.ParseRoundTrip | src/parser.rs:604-622 | the tokens of any JSON value parse to exactly its events, whatever follows them; only a number without an exponent, which reads one token ahead, needs that token not to continue it or be a lexer Error |
| ParserProps.TopLevel | src/parser.rs:613-617 | `parse` sends what the top-level value sent and nothing else |
| ParserExamples.KindsParse | src/parser.rs:604-622 | a stream whose token kinds are any value's tokens parses to that value's events, at any positions |
| ParserExamples.ArrayOfObjects | tests/test_parser.rs:734-847 | `[false, {}, {}]` gives its seven tags |
| ParserExamples.NegativeFraction | tests/test_parser.rs:135-187 | `-3.14159` gives `Number("-3.14159")` |
| ParserExamples.SignedExponent | tests/test_parser.rs:256-308 | `37728E+117` gives `Number("37728E+117")` |
| ParserExamples.VersionedConfig | tests/lib.rs:19-45 | the example document's tokens give the twelve expected tags |
| ParserExamples.ObjectWithoutKey | tests/test_parser.rs:400-446 | `{ true }` gives `BeginObject` and `PairOrCurlyExpected` |
| ParserExamples.ObjectWithoutColon | tests/test_parser.rs:448-495 | `{ "blab" }` gives the key, then the missing-colon error |
| ParserExamples.ObjectWithoutValue | tests/test_parser.rs:497-556 | `{ "blab": }` gives the key, then the missing-value error at the colon |
| ParserExamples.ObjectDoubleComma | tests/test_parser.rs:558-650 | `{ "blab": null,, }` is rejected at the second comma |
| ParserExamples.ArrayStrayComma | tests/test_parser.rs:686-732 | `[ , ]` is rejected at the comma |
| ParserExamples.PairsWithoutComma | src/parser.rs:105-118 | two pairs with no comma between them are accepted |
| ParserExamples.TwoPairs | src/parser.rs:102-197 | the object loop from the first key of that stream |
| ParserExamples.NestedFailure | src/parser.rs:263-273 | in `[[}` the inner and the outer array both report the failed item |
| ParserExamples.StrayCloser | src/parser.rs:604-622 | a stream that starts with any token that starts no value and is not an Error (a closer, `,`, `:`, `+`, `.` or an exponent marker) sends nothing |
| Pipeline.LexedWellQuoted | src/lib.rs:4-10 | every string token the lexer sends can be stripped by the parser |
| Pipeline.ParseText | src/lib.rs:4-10 | the tags for any text are either clean or end in an error, with nothing ordinary after it |
| Pipeline.Parse | src/lib.rs:4-10 | lexing the chunks and parsing the tokens gives the tags of the chunks read as one text |
| Pipeline.EmptyText | tests/lib.rs:7-16 | an empty source gives exactly one tag: "Source cannot be empty" at line 1, column 1 |
| Pipeline.EmptyChunks | tests/lib.rs:7-16 | any number of empty chunks gives that one tag |

## Left out

- Threads and channels. `lex`, `parse` and `hamberder::parse` run their
  stages on background threads joined by `mpsc` channels. The model
  composes them as functions over a finished input. An incoming channel
  is a sequence of chunks or tokens. An outgoing channel is a sequence
  that is appended to.
- `send(...).unwrap()`. The model treats every send as succeeding. The
  parser's `if sink.send(..).is_err()` branches, which return `Err` when the
  receiver has gone, are not modelled.
- `parse_file` (src/lib.rs:17-34). It reads a file in 8 KiB chunks, so it
  depends on file I/O. The chunks it would send are modelled by
  `Pipeline.Parse`'s `chunks`.
- `examples/tosql.rs` is not part of this model.
- `new_tok_info` (src/parser.rs:394-453) is a local of `try_number`. It is
  updated while the number is read, but it is never attached to the
  `Number` tag, so it is not modelled.
- Lengths and positions count characters. The source's `"false".len()`
  and similar are byte lengths, but they agree here because all keywords
  are ASCII.
- Error messages are a `Message` datatype, one constructor per message. The
  character or key each message embeds is kept, and `Tokens.Text` renders
  the message wording.
- The `if current_token.is_some()` branch at src/lexer.rs:254-260 cannot
  run. No token can be open when a quote is read there. The model has no
  such branch, and the machine invariant `LexerSpec.Inv` shows why.
- The `panic!` at src/lexer.rs:192-194 is unreachable. `LexerSpec.Inv`
  proves that a pending CRLF implies column 1.
- ParserSpec.StripStringQuotes: the source's check measures the token in
  bytes, and it also cuts in bytes (src/parser.rs:30-39). It panics when
  the token is shorter than two bytes. `Strippable` is the same check
  counted in characters, and `StripStringQuotes` drops the first and last
  characters. The two agree on every token that starts and ends with `"`,
  and `Pipeline.LexedWellQuoted` proves the lexer sends only such tokens.
  The `Parser.Parser` constructor and the parser functions require
  `WellQuoted` for the same reason.
- ParserSpec.Value, ParserSpec.Scalar, ParserSpec.NumberValue,
  ParserSpec.Fraction and ParserSpec.ExponentPart: their own contracts only
  bound the cursor and relate the handed-back token to the stream. What
  they send is proved by `ParserProps` (the `...Settles`, `...Parsed` and
  `...Rejected` lemmas).
- ParserSpec.ObjectLoop, ParserSpec.ArrayLoop, ParserSpec.KvPair and
  ParserSpec.KvValue: the same. Their behaviour is proved by
  `ParserProps.MembersParsed`, `ParserProps.ItemsParsed` and the error
  lemmas beside them.
- ParserExamples.VersionedConfig: the lemma starts from the document's
  token kinds, not its characters. Positions are left free, and the
  lexing of that particular text is not proved.
- Two tests, tests/test_lexer.rs:401-434, contradict the code.
  - One expects an Error after the `-` of `- 1234`. The code sends
    `MinusSign` and then `Integer("1234")`.
  - The other expects an Error after the `12` of `12\t.\r34`. The code
    sends `Integer("12")`, `Dot` and `Integer("34")`.
  - The model follows the code, so these two tests are not modelled.
