/** The recursive-descent parser of `src/parser.rs` as pure functions over the
    token sequence. The shared iterator is an index `pos` into `ts` (the
    next token to be pulled) and the tag channel is the sequence `sink` of
    tags sent so far; every function returns the sink after its step, the
    new index and its outcome. The `Parser` class in parser.dfy performs the
    same steps on a mutable cursor and sink and is proved to agree. */
module ParserSpec {
  import opened Tokens

  /** The parse events sent to the tag channel. */
  datatype Tag =
    | BeginObject
    | EndObject
    | BeginArray
    | EndArray
    | ObjectKey(name: string)
    | StringLiteral(value: string)
    | Number(text: string)
    | TrueLiteral
    | FalseLiteral
    | NullLiteral
    | Error(err: ErrorInfo, info: TokenInfo)

  /** `Result<_, ()>`: `Err` carries nothing, the error was already sent. */
  datatype Outcome<T> = Ok(value: T) | Err

  /** The `(bool, Option<TokenPair>)` pair: whether a value was recognised,
      and the token pulled past its end, if any. */
  datatype Attempt = Attempt(matched: bool, leftover: Option<TokenPair>)

  /** The tag channel afterwards, where the cursor is, and what was returned. */
  datatype Res<T> = Res(tags: seq<Tag>, pos: nat, out: T)

  /** A string token the parser can strip: the lexer's string tokens always
      include both quotes. */
  predicate Strippable(t: Token) {
    t.StringLiteral? ==> |t.text| >= 2
  }

  ghost predicate WellQuoted(ts: seq<TokenPair>) {
    forall i :: 0 <= i < |ts| ==> Strippable(ts[i].0)
  }

  /** No Error tag. */
  ghost predicate Clean(tags: seq<Tag>) {
    forall i :: 0 <= i < |tags| ==> !tags[i].Error?
  }

  /** Once an Error tag has been sent, only Error tags follow, and the last
      tag is an Error (or nothing was sent at all). */
  ghost predicate Aborted(tags: seq<Tag>) {
    (forall i, j :: 0 <= i < j < |tags| && tags[i].Error? ==> tags[j].Error?) &&
    (|tags| > 0 ==> tags[|tags| - 1].Error?)
  }

  /** The tokens `try_value` recognises as the first token of a value. */
  predicate StartsValue(t: Token) {
    t.LeftCurly? || t.LeftBracket? || t.StringLiteral? || IsKeyword(t) ||
    t.MinusSign? || t.Integer?
  }

  /** The text between the quotes (parser.rs:30-39). */
  function StripStringQuotes(s: string): (r: string)
    requires |s| >= 2
    ensures |r| == |s| - 2
    ensures s == [s[0]] + r + [s[|s| - 1]]
  {
    if |s| == 2 then "" else s[1..|s| - 1]
  }

  /** The digits of an Integer token (parser.rs:331-337). */
  function RequireInteger(t: Token): (r: Option<string>)
    ensures r.Some? <==> t.Integer?
    ensures r.Some? ==> r.value == t.digits
  {
    if t.Integer? then Some(t.digits) else None
  }

  /** Where a premature end of stream is reported: just past the last token. */
  function EndInfo(last: TokenInfo): TokenInfo {
    TokenInfo(last.lineNumber, last.charPosition + 1, last.start + last.length, 0)
  }

  /** Pulls one token, if any; a lexer Error token is relayed as an Error tag
      and aborts (parser.rs:344-356). */
  function NextToken(ts: seq<TokenPair>, sink: seq<Tag>, pos: nat): (r: Res<Outcome<Option<TokenPair>>>)
    requires pos <= |ts|
    ensures pos <= r.pos <= |ts|
    ensures r.out == Ok(None) <==> pos == |ts|
    ensures r.out == Ok(None) ==> r.pos == pos && r.tags == sink
    ensures r.out.Ok? && r.out.value.Some? ==>
              r.pos == pos + 1 && r.out.value.value == ts[pos] && !ts[pos].0.Error? && r.tags == sink
    ensures r.out.Err? <==> pos < |ts| && ts[pos].0.Error?
    ensures r.out.Err? ==> r.pos == pos + 1 && r.tags == sink + [Tag.Error(ts[pos].0.err, ts[pos].1)]
  {
    if pos == |ts| then Res(sink, pos, Ok(None))
    else if ts[pos].0.Error? then Res(sink + [Tag.Error(ts[pos].0.err, ts[pos].1)], pos + 1, Err)
    else Res(sink, pos + 1, Ok(Some(ts[pos])))
  }

  /** Pulls one token that must exist; the end of the stream is reported
      just past `last` (parser.rs:360-390). */
  function RequireNext(ts: seq<TokenPair>, sink: seq<Tag>, pos: nat, last: TokenInfo): (r: Res<Outcome<TokenPair>>)
    requires pos <= |ts|
    ensures pos <= r.pos <= |ts|
    ensures r.out.Ok? <==> pos < |ts| && !ts[pos].0.Error?
    ensures r.out.Ok? ==> r.pos == pos + 1 && r.out.value == ts[pos] && r.tags == sink
    ensures pos == |ts| ==> r == Res(sink + [Tag.Error(ErrorInfo(EndOfStream, None), EndInfo(last))], pos, Err)
    ensures pos < |ts| && ts[pos].0.Error? ==>
              r == Res(sink + [Tag.Error(ts[pos].0.err, ts[pos].1)], pos + 1, Err)
  {
    var n := NextToken(ts, sink, pos);
    if n.out.Err? then Res(n.tags, n.pos, Err)
    else if n.out.value.None? then
      Res(sink + [Tag.Error(ErrorInfo(EndOfStream, None), EndInfo(last))], n.pos, Err)
    else Res(n.tags, n.pos, Ok(n.out.value.value))
  }

  /** The tag `try_string` sends for a string token (parser.rs:314-329). */
  function StringTag(t: Token): (r: Option<Tag>)
    requires Strippable(t)
    ensures r.Some? <==> t.StringLiteral?
    ensures r.Some? ==> r.value == Tag.StringLiteral(StripStringQuotes(t.text))
  {
    if t.StringLiteral? then Some(Tag.StringLiteral(StripStringQuotes(t.text))) else None
  }

  /** The tag `try_literal` sends for a keyword token (parser.rs:551-565). */
  function LiteralTag(t: Token): (r: Option<Tag>)
    ensures r.Some? <==> IsKeyword(t)
    ensures r == Some(Tag.TrueLiteral) <==> t == Token.TrueLiteral
    ensures r == Some(Tag.FalseLiteral) <==> t == Token.FalseLiteral
    ensures r == Some(Tag.NullLiteral) <==> t == Token.NullLiteral
  {
    match t
    case FalseLiteral => Some(Tag.FalseLiteral)
    case TrueLiteral => Some(Tag.TrueLiteral)
    case NullLiteral => Some(Tag.NullLiteral)
    case _ => None
  }

  /** Sends one Error tag and aborts. */
  function Fail<T>(sink: seq<Tag>, m: Message, info: TokenInfo, pos: nat): Res<Outcome<T>> {
    Res(sink + [Tag.Error(ErrorInfo(m, None), info)], pos, Err)
  }

  /** Passes on an abort. */
  function Abort<S, T>(r: Res<Outcome<S>>): Res<Outcome<T>> {
    Res(r.tags, r.pos, Err)
  }

  /** Sends a completed number (`send_num_and_return`). */
  function Emit(sink: seq<Tag>, text: string, pos: nat, leftover: Option<TokenPair>): Res<Outcome<Attempt>> {
    Res(sink + [Number(text)], pos, Ok(Attempt(true, leftover)))
  }

  /** The exponent digits, after `E` and an optional sign (parser.rs:526-533). */
  function ExponentDigits(sink: seq<Tag>, text: string, pair: TokenPair, pos: nat): (r: Res<Outcome<Attempt>>) {
    if pair.0.Integer? then Emit(sink, text + pair.0.digits, pos, None)
    else Fail(sink, DigitsAfterMinus, pair.1, pos)
  }

  /** The token after the integer or fraction part: an exponent marker
      continues the number, anything else is handed back (parser.rs:486-548). */
  function ExponentPart(ts: seq<TokenPair>, sink: seq<Tag>, text: string, pair: TokenPair, pos: nat): (r: Res<Outcome<Attempt>>)
    requires 0 < pos <= |ts| && pair == ts[pos - 1]
    ensures pos <= r.pos <= |ts|
    ensures r.out.Ok? && r.out.value.leftover.Some? ==> r.pos == pos && r.out.value.leftover.value == ts[r.pos - 1]
    ensures r.out.Ok? ==> r.out.value.matched
  {
    if !pair.0.Exponent? then Emit(sink, text, pos, Some(pair))
    else
      var marked := text + "E";
      var n := NextToken(ts, sink, pos);
      if n.out.Err? then Abort(n)
      else if n.out.value.None? then Fail(sink, ExponentDigitsExpected, pair.1, n.pos)
      else
        var sign := n.out.value.value;
        if sign.0.PlusSign? || sign.0.MinusSign? then
          var signed := marked + (if sign.0.PlusSign? then "+" else "-");
          var d := NextToken(ts, sink, n.pos);
          if d.out.Err? then Abort(d)
          else if d.out.value.None? then Fail(sink, ExponentDigitsExpected, sign.1, d.pos)
          else ExponentDigits(sink, signed, d.out.value.value, d.pos)
        else ExponentDigits(sink, marked, sign, n.pos)
  }

  /** Everything after the integer part: an optional fraction, then an
      optional exponent (parser.rs:440-548). */
  function Fraction(ts: seq<TokenPair>, sink: seq<Tag>, text: string, pos: nat): (r: Res<Outcome<Attempt>>)
    requires pos <= |ts|
    ensures pos <= r.pos <= |ts|
    ensures r.out.Ok? && r.out.value.leftover.Some? ==> r.pos > pos && r.out.value.leftover.value == ts[r.pos - 1]
    ensures r.out.Ok? ==> r.out.value.matched
  {
    var n := NextToken(ts, sink, pos);
    if n.out.Err? then Abort(n)
    else if n.out.value.None? then Emit(sink, text, n.pos, None)
    else
      var pair := n.out.value.value;
      if !pair.0.Dot? then ExponentPart(ts, sink, text, pair, n.pos)
      else
        var f := RequireNext(ts, sink, n.pos, pair.1);
        if f.out.Err? then Abort(f)
        else if !f.out.value.0.Integer? then Fail(sink, FractionDigitsExpected, pair.1, f.pos)
        else
          var fractional := text + "." + f.out.value.0.digits;
          var m := NextToken(ts, sink, f.pos);
          if m.out.Err? then Abort(m)
          else if m.out.value.None? then Emit(sink, fractional, m.pos, None)
          else ExponentPart(ts, sink, fractional, m.out.value.value, m.pos)
  }

  /** `try_number` (parser.rs:392-549): an optional `-`, the integer part,
      then `Fraction`. */
  function NumberValue(ts: seq<TokenPair>, sink: seq<Tag>, first: TokenPair, pos: nat): (r: Res<Outcome<Attempt>>)
    requires pos <= |ts|
    ensures pos <= r.pos <= |ts|
    ensures r.out.Ok? && r.out.value.leftover.Some? ==> r.pos > pos && r.out.value.leftover.value == ts[r.pos - 1]
    ensures r.out.Ok? && !r.out.value.matched <==> !first.0.MinusSign? && !first.0.Integer?
    ensures !first.0.MinusSign? && !first.0.Integer? ==> r == Res(sink, pos, Ok(Attempt(false, None)))
  {
    if first.0.MinusSign? then
      var n := RequireNext(ts, sink, pos, first.1);
      if n.out.Err? then Abort(n)
      else if !n.out.value.0.Integer? then Fail(sink, DigitsAfterMinus, n.out.value.1, n.pos)
      else Fraction(ts, sink, "-" + n.out.value.0.digits, n.pos)
    else if first.0.Integer? then Fraction(ts, sink, first.0.digits, pos)
    else Res(sink, pos, Ok(Attempt(false, None)))
  }

  /** `try_value` (parser.rs:567-602): an object, an array, a string, a
      keyword or a number, tried in that order. `first` has already been
      pulled; `pos` is the next token. */
  function Value(ts: seq<TokenPair>, sink: seq<Tag>, first: TokenPair, pos: nat): (r: Res<Outcome<Attempt>>)
    requires pos <= |ts| && WellQuoted(ts) && Strippable(first.0)
    ensures pos <= r.pos <= |ts|
    ensures r.out.Ok? && r.out.value.leftover.Some? ==> r.pos > pos && r.out.value.leftover.value == ts[r.pos - 1]
    decreases |ts| - pos, 2
  {
    var o := Object(ts, sink, first, pos);
    if o.out.Err? then Abort(o)
    else if o.out.value then Res(o.tags, o.pos, Ok(Attempt(true, None)))
    else
      var a := Array(ts, sink, first, pos);
      if a.out.Err? then Abort(a)
      else if a.out.value then Res(a.tags, a.pos, Ok(Attempt(true, None)))
      else Scalar(ts, sink, first, pos)
  }

  /** The last three attempts of `try_value` (parser.rs:585-601): a string,
      a keyword or a number; any other token is rejected without a tag. */
  function Scalar(ts: seq<TokenPair>, sink: seq<Tag>, first: TokenPair, pos: nat): (r: Res<Outcome<Attempt>>)
    requires pos <= |ts| && Strippable(first.0)
    ensures pos <= r.pos <= |ts|
    ensures r.out.Ok? && r.out.value.leftover.Some? ==> r.pos > pos && r.out.value.leftover.value == ts[r.pos - 1]
  {
    if StringTag(first.0).Some? then Res(sink + [StringTag(first.0).value], pos, Ok(Attempt(true, None)))
    else if LiteralTag(first.0).Some? then Res(sink + [LiteralTag(first.0).value], pos, Ok(Attempt(true, None)))
    else
      var n := NumberValue(ts, sink, first, pos);
      if n.out.Ok? && n.out.value.matched then n
      else Abort(n)
  }

  /** `try_object` (parser.rs:93-203): `Ok(false)` when `first` is not `{`. */
  function Object(ts: seq<TokenPair>, sink: seq<Tag>, first: TokenPair, pos: nat): (r: Res<Outcome<bool>>)
    requires pos <= |ts| && WellQuoted(ts)
    ensures pos <= r.pos <= |ts|
    ensures r.out == Ok(false) <==> !first.0.LeftCurly?
    ensures !first.0.LeftCurly? ==> r == Res(sink, pos, Ok(false))
    decreases |ts| - pos, 1
  {
    if !first.0.LeftCurly? then Res(sink, pos, Ok(false))
    else
      var n := RequireNext(ts, sink + [BeginObject], pos, first.1);
      if n.out.Err? then Abort(n)
      else ObjectLoop(ts, n.tags, first.1, n.out.value, n.pos, false, false)
  }

  /** One turn of the object loop with `next` in hand, given the two flags
      `require_comma_or_curly` and `require_kv_pair`. A key is accepted in
      either state: a missing comma between pairs goes unnoticed. */
  function ObjectLoop(ts: seq<TokenPair>, sink: seq<Tag>, startInfo: TokenInfo, next: TokenPair, pos: nat,
                      commaOrCurly: bool, pairRequired: bool): (r: Res<Outcome<bool>>)
    requires pos <= |ts| && WellQuoted(ts) && Strippable(next.0)
    ensures pos <= r.pos <= |ts|
    ensures r.out.Ok? ==> r.out.value
    decreases |ts| - pos, 4
  {
    if next.0.StringLiteral? then
      var kv := KvPair(ts, sink, next.0.text, next.1, pos);
      if !kv.out.matched then Res(kv.tags, kv.pos, Err)
      else if kv.out.leftover.Some? then
        ObjectLoop(ts, kv.tags, startInfo, kv.out.leftover.value, kv.pos, true, false)
      else ObjectAdvance(ts, kv.tags, startInfo, kv.pos, true, false)
    else if next.0.Comma? then
      if commaOrCurly then ObjectAdvance(ts, sink, startInfo, pos, false, true)
      else Fail(sink, UnexpectedCommaInObject, next.1, pos)
    else if next.0.RightCurly? then
      if pairRequired then Fail(sink, PairAfterComma, next.1, pos)
      else Res(sink + [EndObject], pos, Ok(true))
    else if pairRequired then Fail(sink, PairExpected, next.1, pos)
    else if commaOrCurly then Fail(sink, CommaOrCurlyExpected, next.1, pos)
    else Fail(sink, PairOrCurlyExpected, next.1, pos)
  }

  /** Loads the next token of an object; a premature end is reported
      relative to the opening `{` (parser.rs:190-196). */
  function ObjectAdvance(ts: seq<TokenPair>, sink: seq<Tag>, startInfo: TokenInfo, pos: nat,
                         commaOrCurly: bool, pairRequired: bool): (r: Res<Outcome<bool>>)
    requires pos <= |ts| && WellQuoted(ts)
    ensures pos <= r.pos <= |ts|
    ensures r.out.Ok? ==> r.out.value
    decreases |ts| - pos, 3
  {
    var n := RequireNext(ts, sink, pos, startInfo);
    if n.out.Err? then Abort(n)
    else ObjectLoop(ts, n.tags, startInfo, n.out.value, n.pos, commaOrCurly, pairRequired)
  }

  /** `require_object_kv_pair` (parser.rs:41-91): the key tag, then a colon,
      then `KvValue`. It never returns `Err`; a failure is `matched == false`. */
  function KvPair(ts: seq<TokenPair>, sink: seq<Tag>, key: string, keyInfo: TokenInfo, pos: nat): (r: Res<Attempt>)
    requires pos <= |ts| && WellQuoted(ts) && |key| >= 2
    ensures pos <= r.pos <= |ts|
    ensures r.out.matched ==> r.pos >= pos + 2
    ensures r.out.leftover.Some? ==> r.pos >= pos + 3 && r.out.leftover.value == ts[r.pos - 1]
    decreases |ts| - pos, 3
  {
    var name := StripStringQuotes(key);
    var keyed := sink + [ObjectKey(name)];
    var colon := RequireNext(ts, keyed, pos, keyInfo);
    if colon.out.Err? then Res(colon.tags, colon.pos, Attempt(false, None))
    else if !colon.out.value.0.Colon? then
      Res(keyed + [Tag.Error(ErrorInfo(ColonExpected(name), None), colon.out.value.1)], colon.pos, Attempt(false, None))
    else KvValue(ts, keyed, name, colon.out.value.1, colon.pos)
  }

  /** The value after the colon of a pair (parser.rs:56-87); when it is
      missing or malformed, one more Error names the key, at the colon. */
  function KvValue(ts: seq<TokenPair>, keyed: seq<Tag>, name: string, colonInfo: TokenInfo, pos: nat): (r: Res<Attempt>)
    requires pos <= |ts| && WellQuoted(ts)
    ensures pos <= r.pos <= |ts|
    ensures r.out.matched ==> r.pos >= pos + 1
    ensures r.out.leftover.Some? ==> r.pos >= pos + 2 && r.out.leftover.value == ts[r.pos - 1]
    decreases |ts| - pos, 3
  {
    var v := RequireNext(ts, keyed, pos, colonInfo);
    if v.out.Err? then Res(v.tags, v.pos, Attempt(false, None))
    else
      var missing := Tag.Error(ErrorInfo(ValueRequired(name), None), colonInfo);
      var value := Value(ts, keyed, v.out.value, v.pos);
      if value.out.Err? then Res(value.tags + [missing], value.pos, Attempt(false, None))
      else if !value.out.value.matched then Res(value.tags + [missing], value.pos, value.out.value)
      else Res(value.tags, value.pos, value.out.value)
  }

  /** `try_array` (parser.rs:205-312): `Ok(false)` when `first` is not `[`. */
  function Array(ts: seq<TokenPair>, sink: seq<Tag>, first: TokenPair, pos: nat): (r: Res<Outcome<bool>>)
    requires pos <= |ts| && WellQuoted(ts)
    ensures pos <= r.pos <= |ts|
    ensures r.out == Ok(false) <==> !first.0.LeftBracket?
    ensures !first.0.LeftBracket? ==> r == Res(sink, pos, Ok(false))
    decreases |ts| - pos, 1
  {
    if !first.0.LeftBracket? then Res(sink, pos, Ok(false))
    else
      var n := RequireNext(ts, sink + [BeginArray], pos, first.1);
      if n.out.Err? then Abort(n)
      else ArrayLoop(ts, n.tags, first.1, n.out.value, n.pos, false, false)
  }

  /** One turn of the array loop with `next` in hand, given the flags
      `require_comma_or_bracket` and `require_value_tok`. */
  function ArrayLoop(ts: seq<TokenPair>, sink: seq<Tag>, startInfo: TokenInfo, next: TokenPair, pos: nat,
                     commaOrBracket: bool, valueRequired: bool): (r: Res<Outcome<bool>>)
    requires pos <= |ts| && WellQuoted(ts) && Strippable(next.0)
    ensures pos <= r.pos <= |ts|
    ensures r.out.Ok? ==> r.out.value
    decreases |ts| - pos, 4
  {
    if next.0.Comma? then
      if commaOrBracket then ArrayAdvance(ts, sink, startInfo, pos, false, true)
      else Fail(sink, UnexpectedCommaInArray, next.1, pos)
    else if next.0.RightBracket? then
      if valueRequired then Fail(sink, ValueAfterComma, next.1, pos)
      else Res(sink + [EndArray], pos, Ok(true))
    else if commaOrBracket then Fail(sink, CommaOrBracketExpected, next.1, pos)
    else
      var v := ArrayItem(ts, sink, next, pos);
      if v.out.Err? then Abort(v)
      else if v.out.value.leftover.Some? then
        ArrayLoop(ts, v.tags, startInfo, v.out.value.leftover.value, v.pos, true, false)
      else ArrayAdvance(ts, v.tags, startInfo, v.pos, true, false)
  }

  /** A value inside an array (parser.rs:262-296); its failure is reported
      once more, at the token that should have started it. */
  function ArrayItem(ts: seq<TokenPair>, sink: seq<Tag>, next: TokenPair, pos: nat): (r: Res<Outcome<Attempt>>)
    requires pos <= |ts| && WellQuoted(ts) && Strippable(next.0)
    ensures pos <= r.pos <= |ts|
    ensures r.out.Ok? ==> r.out.value.matched
    ensures r.out.Ok? && r.out.value.leftover.Some? ==> r.pos > pos && r.out.value.leftover.value == ts[r.pos - 1]
    decreases |ts| - pos, 3
  {
    var v := Value(ts, sink, next, pos);
    if v.out.Err? || !v.out.value.matched then Fail(v.tags, ValueOrBracketExpected, next.1, v.pos)
    else v
  }

  /** Loads the next token of an array; a premature end is reported
      relative to the opening `[` (parser.rs:299-305). */
  function ArrayAdvance(ts: seq<TokenPair>, sink: seq<Tag>, startInfo: TokenInfo, pos: nat,
                        commaOrBracket: bool, valueRequired: bool): (r: Res<Outcome<bool>>)
    requires pos <= |ts| && WellQuoted(ts)
    ensures pos <= r.pos <= |ts|
    ensures r.out.Ok? ==> r.out.value
    decreases |ts| - pos, 3
  {
    var n := RequireNext(ts, sink, pos, startInfo);
    if n.out.Err? then Abort(n)
    else ArrayLoop(ts, n.tags, startInfo, n.out.value, n.pos, commaOrBracket, valueRequired)
  }

  /** `parse` (parser.rs:604-622): nothing for an empty stream, a leading
      lexer error relayed alone, otherwise one value; whatever follows that
      value, including a number's leftover token, is dropped. */
  function Parse(ts: seq<TokenPair>): seq<Tag>
    requires WellQuoted(ts)
  {
    if |ts| == 0 then []
    else if ts[0].0.Error? then [Tag.Error(ts[0].0.err, ts[0].1)]
    else Value(ts, [], ts[0], 1).tags
  }
}
