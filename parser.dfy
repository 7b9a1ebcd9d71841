/** The parser of `src/parser.rs` as the source runs it: the token iterator
    shared by every `try_*` routine is the cursor `pos` into `source`, and
    the tag channel is the field `sink`, appended to. Each method is proved
    to send exactly the tags, leave the cursor exactly where, and return
    exactly what the function of the same step in parser_spec.dfy says. */
module Parser {
  import opened Tokens
  import opened ParserSpec

  class Parser {
    /** Everything the lexer sent. */
    const source: seq<TokenPair>
    /** The next token the iterator yields. */
    var pos: nat
    /** Everything sent on the tag channel so far. */
    var sink: seq<Tag>

    ghost predicate Valid()
      reads this
    {
      pos <= |source| && WellQuoted(source)
    }

    constructor (source: seq<TokenPair>)
      requires WellQuoted(source)
      ensures Valid() && this.source == source && pos == 0 && sink == []
    {
      this.source := source;
      pos := 0;
      sink := [];
    }

    method Send(tag: Tag)
      modifies this`sink
      ensures sink == old(sink) + [tag]
    {
      sink := sink + [tag];
    }

    /** `try_next_token` (parser.rs:344-356). */
    method TryNextToken() returns (r: Outcome<Option<TokenPair>>)
      requires Valid()
      modifies this
      ensures Valid()
      ensures r == NextToken(source, old(sink), old(pos)).out
      ensures pos == NextToken(source, old(sink), old(pos)).pos
      ensures sink == NextToken(source, old(sink), old(pos)).tags
    {
      if pos == |source| {
        return Ok(None);
      }
      var pair := source[pos];
      pos := pos + 1;
      if pair.0.Error? {
        Send(Tag.Error(pair.0.err, pair.1));
        return Err;
      }
      return Ok(Some(pair));
    }

    /** `require_next_token` (parser.rs:360-390). */
    method RequireNextToken(last: TokenInfo) returns (r: Outcome<TokenPair>)
      requires Valid()
      modifies this
      ensures Valid()
      ensures r == RequireNext(source, old(sink), old(pos), last).out
      ensures pos == RequireNext(source, old(sink), old(pos), last).pos
      ensures sink == RequireNext(source, old(sink), old(pos), last).tags
    {
      var pair := TryNextToken();
      if pair.Err? {
        return Err;
      }
      if pair.value.None? {
        Send(Tag.Error(ErrorInfo(EndOfStream, None), EndInfo(last)));
        return Err;
      }
      return Ok(pair.value.value);
    }

    /** `require_object_kv_pair` (parser.rs:41-91). */
    method RequireObjectKvPair(key: string, keyInfo: TokenInfo) returns (r: Attempt)
      requires Valid() && |key| >= 2
      modifies this
      decreases |source| - pos, 3
      ensures Valid()
      ensures r == KvPair(source, old(sink), key, keyInfo, old(pos)).out
      ensures pos == KvPair(source, old(sink), key, keyInfo, old(pos)).pos
      ensures sink == KvPair(source, old(sink), key, keyInfo, old(pos)).tags
    {
      var name := StripStringQuotes(key);
      Send(ObjectKey(name));
      var colon := RequireNextToken(keyInfo);
      if colon.Err? {
        return Attempt(false, None);
      }
      if !colon.value.0.Colon? {
        Send(Tag.Error(ErrorInfo(ColonExpected(name), None), colon.value.1));
        return Attempt(false, None);
      }
      ghost var keyed := sink;
      assert KvPair(source, old(sink), key, keyInfo, old(pos)) == KvValue(source, keyed, name, colon.value.1, pos);
      var value := RequireNextToken(colon.value.1);
      if value.Err? {
        return Attempt(false, None);
      }
      var result := TryValue(value.value);
      if result.Err? {
        Send(Tag.Error(ErrorInfo(ValueRequired(name), None), colon.value.1));
        return Attempt(false, None);
      }
      if !result.value.matched {
        Send(Tag.Error(ErrorInfo(ValueRequired(name), None), colon.value.1));
      }
      return result.value;
    }

    /** `try_object` (parser.rs:93-203). */
    method TryObject(first: TokenPair) returns (r: Outcome<bool>)
      requires Valid()
      modifies this
      decreases |source| - pos, 1
      ensures Valid()
      ensures r == Object(source, old(sink), first, old(pos)).out
      ensures pos == Object(source, old(sink), first, old(pos)).pos
      ensures sink == Object(source, old(sink), first, old(pos)).tags
    {
      if !first.0.LeftCurly? {
        return Ok(false);
      }
      ghost var goal := Object(source, sink, first, pos);
      Send(BeginObject);
      var loaded := RequireNextToken(first.1);
      if loaded.Err? {
        return Err;
      }
      var next := loaded.value;
      var commaOrCurly, pairRequired := false, false;
      while true
        invariant Valid() && Strippable(next.0) && pos > old(pos)
        invariant goal == ObjectLoop(source, sink, first.1, next, pos, commaOrCurly, pairRequired)
        decreases |source| - pos
      {
        if next.0.StringLiteral? {
          var res := RequireObjectKvPair(next.0.text, next.1);
          if !res.matched {
            return Err;
          }
          commaOrCurly, pairRequired := true, false;
          if res.leftover.Some? {
            // the value's lookahead is the next token to examine
            next := res.leftover.value;
            continue;
          }
        } else if next.0.Comma? {
          if commaOrCurly {
            pairRequired, commaOrCurly := true, false;
          } else {
            Send(Tag.Error(ErrorInfo(UnexpectedCommaInObject, None), next.1));
            return Err;
          }
        } else if next.0.RightCurly? {
          if pairRequired {
            Send(Tag.Error(ErrorInfo(PairAfterComma, None), next.1));
            return Err;
          }
          Send(EndObject);
          return Ok(true);
        } else {
          if pairRequired {
            Send(Tag.Error(ErrorInfo(PairExpected, None), next.1));
            return Err;
          }
          if commaOrCurly {
            Send(Tag.Error(ErrorInfo(CommaOrCurlyExpected, None), next.1));
            return Err;
          }
          Send(Tag.Error(ErrorInfo(PairOrCurlyExpected, None), next.1));
          return Err;
        }
        // load the next token, reporting a premature end at the `{`
        var t := RequireNextToken(first.1);
        if t.Err? {
          return Err;
        }
        next := t.value;
      }
    }

    /** `try_array` (parser.rs:205-312). */
    method TryArray(first: TokenPair) returns (r: Outcome<bool>)
      requires Valid()
      modifies this
      decreases |source| - pos, 1
      ensures Valid()
      ensures r == Array(source, old(sink), first, old(pos)).out
      ensures pos == Array(source, old(sink), first, old(pos)).pos
      ensures sink == Array(source, old(sink), first, old(pos)).tags
    {
      if !first.0.LeftBracket? {
        return Ok(false);
      }
      ghost var goal := Array(source, sink, first, pos);
      Send(BeginArray);
      var loaded := RequireNextToken(first.1);
      if loaded.Err? {
        return Err;
      }
      var next := loaded.value;
      var commaOrBracket, valueRequired := false, false;
      while true
        invariant Valid() && Strippable(next.0) && pos > old(pos)
        invariant goal == ArrayLoop(source, sink, first.1, next, pos, commaOrBracket, valueRequired)
        decreases |source| - pos
      {
        if next.0.Comma? {
          if commaOrBracket {
            valueRequired, commaOrBracket := true, false;
          } else {
            Send(Tag.Error(ErrorInfo(UnexpectedCommaInArray, None), next.1));
            return Err;
          }
        } else if next.0.RightBracket? {
          if valueRequired {
            Send(Tag.Error(ErrorInfo(ValueAfterComma, None), next.1));
            return Err;
          }
          Send(EndArray);
          return Ok(true);
        } else {
          if commaOrBracket {
            Send(Tag.Error(ErrorInfo(CommaOrBracketExpected, None), next.1));
            return Err;
          }
          var result := TryArrayItem(next);
          if result.Err? {
            return Err;
          }
          commaOrBracket, valueRequired := true, false;
          if result.value.leftover.Some? {
            // the number's lookahead is the next token to examine
            next := result.value.leftover.value;
            continue;
          }
        }
        // load the next token, reporting a premature end at the `[`
        var t := RequireNextToken(first.1);
        if t.Err? {
          return Err;
        }
        next := t.value;
      }
    }

    /** One value of an array (parser.rs:262-296). */
    method TryArrayItem(next: TokenPair) returns (r: Outcome<Attempt>)
      requires Valid() && Strippable(next.0)
      modifies this
      decreases |source| - pos, 3
      ensures Valid()
      ensures r == ArrayItem(source, old(sink), next, old(pos)).out
      ensures pos == ArrayItem(source, old(sink), next, old(pos)).pos
      ensures sink == ArrayItem(source, old(sink), next, old(pos)).tags
    {
      r := TryValue(next);
      if r.Err? || !r.value.matched {
        Send(Tag.Error(ErrorInfo(ValueOrBracketExpected, None), next.1));
        return Err;
      }
    }

    /** `try_number` (parser.rs:392-549): the text of the number is built up
        piece by piece as its tokens are pulled. */
    method TryNumber(first: TokenPair) returns (r: Outcome<Attempt>)
      requires Valid()
      modifies this
      ensures Valid()
      ensures r == NumberValue(source, old(sink), first, old(pos)).out
      ensures pos == NumberValue(source, old(sink), first, old(pos)).pos
      ensures sink == NumberValue(source, old(sink), first, old(pos)).tags
    {
      var recomposed := "";
      if first.0.MinusSign? {
        var digits := RequireNextToken(first.1);
        if digits.Err? {
          return Err;
        }
        recomposed := recomposed + "-";
        if !digits.value.0.Integer? {
          Send(Tag.Error(ErrorInfo(DigitsAfterMinus, None), digits.value.1));
          return Err;
        }
        recomposed := recomposed + digits.value.0.digits;
        assert recomposed == "-" + digits.value.0.digits;
      } else if first.0.Integer? {
        recomposed := recomposed + first.0.digits;
        assert recomposed == first.0.digits;
      } else {
        return Ok(Attempt(false, None));
      }
      r := TryFraction(recomposed);
    }

    /** The optional fraction of `try_number` (parser.rs:440-485). */
    method TryFraction(recomposed: string) returns (r: Outcome<Attempt>)
      requires Valid()
      modifies this
      ensures Valid()
      ensures r == Fraction(source, old(sink), recomposed, old(pos)).out
      ensures pos == Fraction(source, old(sink), recomposed, old(pos)).pos
      ensures sink == Fraction(source, old(sink), recomposed, old(pos)).tags
    {
      var text := recomposed;
      var opt := TryNextToken();
      if opt.Err? {
        return Err;
      }
      if opt.value.None? {
        Send(Number(text));
        return Ok(Attempt(true, None));
      }
      var pair := opt.value.value;
      if pair.0.Dot? {
        var fraction := RequireNextToken(pair.1);
        if fraction.Err? {
          return Err;
        }
        if !fraction.value.0.Integer? {
          Send(Tag.Error(ErrorInfo(FractionDigitsExpected, None), pair.1));
          return Err;
        }
        text := text + "." + fraction.value.0.digits;
        opt := TryNextToken();
        if opt.Err? {
          return Err;
        }
        if opt.value.None? {
          Send(Number(text));
          return Ok(Attempt(true, None));
        }
        pair := opt.value.value;
      }
      r := TryExponent(text, pair);
    }

    /** The exponent part of `try_number` (parser.rs:486-548), with `pair` the
        token just pulled after the integer or fraction part. */
    method TryExponent(recomposed: string, pair: TokenPair) returns (r: Outcome<Attempt>)
      requires Valid() && 0 < pos && pair == source[pos - 1]
      modifies this
      ensures Valid()
      ensures r == ExponentPart(source, old(sink), recomposed, pair, old(pos)).out
      ensures pos == ExponentPart(source, old(sink), recomposed, pair, old(pos)).pos
      ensures sink == ExponentPart(source, old(sink), recomposed, pair, old(pos)).tags
    {
      if !pair.0.Exponent? {
        // a token that is not part of the number: handed back to the caller
        Send(Number(recomposed));
        return Ok(Attempt(true, Some(pair)));
      }
      var text := recomposed + "E";
      var opt := TryNextToken();
      if opt.Err? {
        return Err;
      }
      if opt.value.None? {
        Send(Tag.Error(ErrorInfo(ExponentDigitsExpected, None), pair.1));
        return Err;
      }
      var (tok, info) := opt.value.value;
      if tok.PlusSign? || tok.MinusSign? {
        text := text + (if tok.PlusSign? then "+" else "-");
        opt := TryNextToken();
        if opt.Err? {
          return Err;
        }
        if opt.value.None? {
          Send(Tag.Error(ErrorInfo(ExponentDigitsExpected, None), info));
          return Err;
        }
        tok, info := opt.value.value.0, opt.value.value.1;
      }
      var digits := RequireInteger(tok);
      if digits.None? {
        // the source reuses the message of a missing digit after `-`
        Send(Tag.Error(ErrorInfo(DigitsAfterMinus, None), info));
        return Err;
      }
      Send(Number(text + digits.value));
      return Ok(Attempt(true, None));
    }

    /** `try_value` (parser.rs:567-602). */
    method TryValue(first: TokenPair) returns (r: Outcome<Attempt>)
      requires Valid() && Strippable(first.0)
      modifies this
      decreases |source| - pos, 2
      ensures Valid()
      ensures r == Value(source, old(sink), first, old(pos)).out
      ensures pos == Value(source, old(sink), first, old(pos)).pos
      ensures sink == Value(source, old(sink), first, old(pos)).tags
    {
      var worked := TryObject(first);
      if worked.Err? {
        return Err;
      } else if worked.value {
        return Ok(Attempt(true, None));
      }
      worked := TryArray(first);
      if worked.Err? {
        return Err;
      } else if worked.value {
        return Ok(Attempt(true, None));
      }
      r := TryScalar(first);
    }

    /** The string, keyword and number attempts of `try_value`
        (parser.rs:585-601). */
    method TryScalar(first: TokenPair) returns (r: Outcome<Attempt>)
      requires Valid() && Strippable(first.0)
      modifies this
      ensures Valid()
      ensures r == Scalar(source, old(sink), first, old(pos)).out
      ensures pos == Scalar(source, old(sink), first, old(pos)).pos
      ensures sink == Scalar(source, old(sink), first, old(pos)).tags
    {
      var tag := StringTag(first.0);
      if tag.Some? {
        Send(tag.value);
        return Ok(Attempt(true, None));
      }
      tag := LiteralTag(first.0);
      if tag.Some? {
        Send(tag.value);
        return Ok(Attempt(true, None));
      }
      var number := TryNumber(first);
      if number.Ok? && number.value.matched {
        return number;
      }
      return Err;
    }
  }

  /** `parse` (parser.rs:604-622) over the whole token stream, with the tag
      channel collected into a sequence. */
  method ParseTokens(ts: seq<TokenPair>) returns (tags: seq<Tag>)
    requires WellQuoted(ts)
    ensures tags == ParserSpec.Parse(ts)
  {
    var parser := new Parser(ts);
    var first := parser.TryNextToken();
    if first.Ok? && first.value.Some? {
      var result := parser.TryValue(first.value.value);
    }
    tags := parser.sink;
  }
}
