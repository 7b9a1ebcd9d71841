/** Properties of the parser model in parser_spec.dfy: once an Error tag is
    sent nothing but Error tags follow; a well-formed token stream of a JSON
    value is turned into exactly that value's events; and the error
    reports of the individual routines. */
module ParserProps {
  import opened Tokens
  import opened ParserSpec

  // ---------------------------------------------------------------------
  // Errors are final
  // ---------------------------------------------------------------------

  /** `tags` is `sink` with more tags sent after it: clean ones when `ok`,
      and otherwise ones that end in an Error after which only Errors come. */
  ghost predicate Settled(sink: seq<Tag>, tags: seq<Tag>, ok: bool) {
    |sink| <= |tags| && tags[..|sink|] == sink &&
    (ok ==> Clean(tags[|sink|..])) &&
    (!ok ==> Aborted(tags[|sink|..]))
  }

  lemma SettledRefl(sink: seq<Tag>)
    ensures Settled(sink, sink, true)
  {
    assert sink[|sink|..] == [];
  }

  lemma SettledClean(sink: seq<Tag>, t: Tag)
    requires !t.Error?
    ensures Settled(sink, sink + [t], true)
  {
    assert (sink + [t])[..|sink|] == sink;
    assert (sink + [t])[|sink|..] == [t];
  }

  lemma {:induction false} SettledTrans(a: seq<Tag>, b: seq<Tag>, c: seq<Tag>, ok: bool)
    requires Settled(a, b, true) && Settled(b, c, ok)
    requires !ok ==> |c| > |b|
    ensures Settled(a, c, ok)
  {
    assert c[..|a|] == b[..|a|] by {
      assert c[..|b|] == b;
    }
    var x := b[|a|..];
    var y := c[|b|..];
    assert c[|a|..] == x + y by {
      assert b == b[..|a|] + x;
      assert c == c[..|b|] + y;
      assert c == a + (x + y);
    }
    if !ok {
      assert forall k :: 0 <= k < |x| ==> !(x + y)[k].Error?;
      forall i, j | 0 <= i < j < |x + y| && (x + y)[i].Error?
        ensures (x + y)[j].Error?
      {
        assert (x + y)[j] == y[j - |x|];
      }
      assert (x + y)[|x + y| - 1] == y[|y| - 1];
    }
  }

  lemma {:induction false} SettledFail(a: seq<Tag>, b: seq<Tag>, ok: bool, e: Tag)
    requires Settled(a, b, ok) && e.Error?
    ensures Settled(a, b + [e], false)
  {
    var x := b[|a|..];
    assert (b + [e])[..|a|] == a;
    assert (b + [e])[|a|..] == x + [e];
    forall i, j | 0 <= i < j < |x + [e]| && (x + [e])[i].Error?
      ensures (x + [e])[j].Error?
    {
      if j < |x| {
        assert !ok;
      }
    }
  }

  lemma FailSettles<T>(sink: seq<Tag>, m: Message, info: TokenInfo, pos: nat)
    ensures var r: Res<Outcome<T>> := Fail(sink, m, info, pos);
            Settled(sink, r.tags, false) && |r.tags| > |sink|
  {
    SettledRefl(sink);
    SettledFail(sink, sink, true, Tag.Error(ErrorInfo(m, None), info));
  }

  lemma NextSettles(ts: seq<TokenPair>, sink: seq<Tag>, pos: nat)
    requires pos <= |ts|
    ensures var r := NextToken(ts, sink, pos);
            Settled(sink, r.tags, r.out.Ok?) && (r.out.Err? ==> |r.tags| > |sink|)
  {
    SettledRefl(sink);
    if pos < |ts| && ts[pos].0.Error? {
      SettledFail(sink, sink, true, Tag.Error(ts[pos].0.err, ts[pos].1));
    }
  }

  lemma RequireSettles(ts: seq<TokenPair>, sink: seq<Tag>, pos: nat, last: TokenInfo)
    requires pos <= |ts|
    ensures var r := RequireNext(ts, sink, pos, last);
            Settled(sink, r.tags, r.out.Ok?) && (r.out.Err? ==> |r.tags| > |sink|)
  {
    SettledRefl(sink);
    if pos == |ts| {
      SettledFail(sink, sink, true, Tag.Error(ErrorInfo(EndOfStream, None), EndInfo(last)));
    } else if ts[pos].0.Error? {
      SettledFail(sink, sink, true, Tag.Error(ts[pos].0.err, ts[pos].1));
    }
  }

  lemma ExponentSettles(ts: seq<TokenPair>, sink: seq<Tag>, text: string, pair: TokenPair, pos: nat)
    requires 0 < pos <= |ts| && pair == ts[pos - 1]
    ensures var r := ExponentPart(ts, sink, text, pair, pos);
            Settled(sink, r.tags, r.out.Ok?) && (r.out.Err? ==> |r.tags| > |sink|)
  {
    SettledRefl(sink);
    if pair.0.Exponent? {
      var n := NextToken(ts, sink, pos);
      NextSettles(ts, sink, pos);
      if n.out.Ok? && n.out.value.Some? {
        var sign := n.out.value.value;
        if sign.0.PlusSign? || sign.0.MinusSign? {
          NextSettles(ts, sink, n.pos);
          var d := NextToken(ts, sink, n.pos);
          if d.out.Ok? && d.out.value.Some? && !d.out.value.value.0.Integer? {
            FailSettles<Attempt>(sink, DigitsAfterMinus, d.out.value.value.1, d.pos);
          } else if d.out.Ok? && d.out.value.Some? {
            SettledClean(sink, Number(text + "E" + (if sign.0.PlusSign? then "+" else "-") + d.out.value.value.0.digits));
          } else if d.out.Ok? {
            FailSettles<Attempt>(sink, ExponentDigitsExpected, sign.1, d.pos);
          }
        } else if sign.0.Integer? {
          SettledClean(sink, Number(text + "E" + sign.0.digits));
        } else {
          FailSettles<Attempt>(sink, DigitsAfterMinus, sign.1, n.pos);
        }
      } else if n.out.Ok? {
        FailSettles<Attempt>(sink, ExponentDigitsExpected, pair.1, n.pos);
      }
    } else {
      SettledClean(sink, Number(text));
    }
  }

  lemma FractionSettles(ts: seq<TokenPair>, sink: seq<Tag>, text: string, pos: nat)
    requires pos <= |ts|
    ensures var r := Fraction(ts, sink, text, pos);
            Settled(sink, r.tags, r.out.Ok?) && (r.out.Err? ==> |r.tags| > |sink|)
  {
    var n := NextToken(ts, sink, pos);
    NextSettles(ts, sink, pos);
    if n.out.Ok? && n.out.value.None? {
      SettledClean(sink, Number(text));
    } else if n.out.Ok? {
      var pair := n.out.value.value;
      if !pair.0.Dot? {
        ExponentSettles(ts, sink, text, pair, n.pos);
      } else {
        var f := RequireNext(ts, sink, n.pos, pair.1);
        RequireSettles(ts, sink, n.pos, pair.1);
        if f.out.Ok? && !f.out.value.0.Integer? {
          FailSettles<Attempt>(sink, FractionDigitsExpected, pair.1, f.pos);
        } else if f.out.Ok? {
          var fractional := text + "." + f.out.value.0.digits;
          var m := NextToken(ts, sink, f.pos);
          NextSettles(ts, sink, f.pos);
          if m.out.Ok? && m.out.value.None? {
            SettledClean(sink, Number(fractional));
          } else if m.out.Ok? {
            ExponentSettles(ts, sink, fractional, m.out.value.value, m.pos);
          }
        }
      }
    }
  }

  lemma NumberSettles(ts: seq<TokenPair>, sink: seq<Tag>, first: TokenPair, pos: nat)
    requires pos <= |ts|
    ensures var r := NumberValue(ts, sink, first, pos);
            Settled(sink, r.tags, r.out.Ok?) && (r.out.Err? ==> |r.tags| > |sink|)
  {
    if first.0.MinusSign? {
      var n := RequireNext(ts, sink, pos, first.1);
      RequireSettles(ts, sink, pos, first.1);
      if n.out.Ok? && !n.out.value.0.Integer? {
        FailSettles<Attempt>(sink, DigitsAfterMinus, n.out.value.1, n.pos);
      } else if n.out.Ok? {
        FractionSettles(ts, sink, "-" + n.out.value.0.digits, n.pos);
      }
    } else if first.0.Integer? {
      FractionSettles(ts, sink, first.0.digits, pos);
    } else {
      SettledRefl(sink);
    }
  }

  lemma ScalarSettles(ts: seq<TokenPair>, sink: seq<Tag>, first: TokenPair, pos: nat)
    requires pos <= |ts| && Strippable(first.0)
    ensures var r := Scalar(ts, sink, first, pos);
            Settled(sink, r.tags, r.out.Ok?)
  {
    if StringTag(first.0).Some? {
      SettledClean(sink, StringTag(first.0).value);
    } else if LiteralTag(first.0).Some? {
      SettledClean(sink, LiteralTag(first.0).value);
    } else {
      NumberSettles(ts, sink, first, pos);
      var n := NumberValue(ts, sink, first, pos);
      if n.out.Ok? && !n.out.value.matched {
        assert n.tags == sink;
        assert sink[|sink|..] == [];
      }
    }
  }

  lemma ValueSettles(ts: seq<TokenPair>, sink: seq<Tag>, first: TokenPair, pos: nat)
    requires pos <= |ts| && WellQuoted(ts) && Strippable(first.0)
    ensures var r := Value(ts, sink, first, pos);
            Settled(sink, r.tags, r.out.Ok?)
    decreases |ts| - pos, 2
  {
    ObjectSettles(ts, sink, first, pos);
    if first.0.LeftBracket? {
      ArraySettles(ts, sink, first, pos);
    } else if !first.0.LeftCurly? {
      ScalarSettles(ts, sink, first, pos);
    }
  }

  lemma ObjectSettles(ts: seq<TokenPair>, sink: seq<Tag>, first: TokenPair, pos: nat)
    requires pos <= |ts| && WellQuoted(ts)
    ensures var r := Object(ts, sink, first, pos);
            Settled(sink, r.tags, r.out.Ok?) && (r.out.Err? ==> |r.tags| > |sink|)
    decreases |ts| - pos, 1
  {
    if !first.0.LeftCurly? {
      SettledRefl(sink);
    } else {
      var entered := sink + [BeginObject];
      SettledClean(sink, BeginObject);
      var n := RequireNext(ts, entered, pos, first.1);
      RequireSettles(ts, entered, pos, first.1);
      if n.out.Ok? {
        ObjectLoopSettles(ts, n.tags, first.1, n.out.value, n.pos, false, false);
        var r := ObjectLoop(ts, n.tags, first.1, n.out.value, n.pos, false, false);
        SettledTrans(sink, entered, r.tags, r.out.Ok?);
      } else {
        SettledTrans(sink, entered, n.tags, false);
      }
    }
  }

  lemma ObjectLoopSettles(ts: seq<TokenPair>, sink: seq<Tag>, startInfo: TokenInfo, next: TokenPair, pos: nat,
                          commaOrCurly: bool, pairRequired: bool)
    requires pos <= |ts| && WellQuoted(ts) && Strippable(next.0)
    ensures var r := ObjectLoop(ts, sink, startInfo, next, pos, commaOrCurly, pairRequired);
            Settled(sink, r.tags, r.out.Ok?) && (r.out.Err? ==> |r.tags| > |sink|)
    decreases |ts| - pos, 4
  {
    if next.0.StringLiteral? {
      var kv := KvPair(ts, sink, next.0.text, next.1, pos);
      KvPairSettles(ts, sink, next.0.text, next.1, pos);
      if kv.out.matched {
        if kv.out.leftover.Some? {
          ObjectLoopSettles(ts, kv.tags, startInfo, kv.out.leftover.value, kv.pos, true, false);
          var r := ObjectLoop(ts, kv.tags, startInfo, kv.out.leftover.value, kv.pos, true, false);
          SettledTrans(sink, kv.tags, r.tags, r.out.Ok?);
        } else {
          ObjectAdvanceSettles(ts, kv.tags, startInfo, kv.pos, true, false);
          var r := ObjectAdvance(ts, kv.tags, startInfo, kv.pos, true, false);
          SettledTrans(sink, kv.tags, r.tags, r.out.Ok?);
        }
      }
    } else if next.0.Comma? {
      if commaOrCurly {
        ObjectAdvanceSettles(ts, sink, startInfo, pos, false, true);
      } else {
        FailSettles<bool>(sink, UnexpectedCommaInObject, next.1, pos);
      }
    } else if next.0.RightCurly? {
      if pairRequired {
        FailSettles<bool>(sink, PairAfterComma, next.1, pos);
      } else {
        SettledClean(sink, EndObject);
      }
    } else if pairRequired {
      FailSettles<bool>(sink, PairExpected, next.1, pos);
    } else if commaOrCurly {
      FailSettles<bool>(sink, CommaOrCurlyExpected, next.1, pos);
    } else {
      FailSettles<bool>(sink, PairOrCurlyExpected, next.1, pos);
    }
  }

  lemma ObjectAdvanceSettles(ts: seq<TokenPair>, sink: seq<Tag>, startInfo: TokenInfo, pos: nat,
                             commaOrCurly: bool, pairRequired: bool)
    requires pos <= |ts| && WellQuoted(ts)
    ensures var r := ObjectAdvance(ts, sink, startInfo, pos, commaOrCurly, pairRequired);
            Settled(sink, r.tags, r.out.Ok?) && (r.out.Err? ==> |r.tags| > |sink|)
    decreases |ts| - pos, 3
  {
    var n := RequireNext(ts, sink, pos, startInfo);
    RequireSettles(ts, sink, pos, startInfo);
    if n.out.Ok? {
      ObjectLoopSettles(ts, n.tags, startInfo, n.out.value, n.pos, commaOrCurly, pairRequired);
    }
  }

  lemma KvPairSettles(ts: seq<TokenPair>, sink: seq<Tag>, key: string, keyInfo: TokenInfo, pos: nat)
    requires pos <= |ts| && WellQuoted(ts) && |key| >= 2
    ensures var r := KvPair(ts, sink, key, keyInfo, pos);
            Settled(sink, r.tags, r.out.matched) && (!r.out.matched ==> |r.tags| > |sink|)
    decreases |ts| - pos, 3
  {
    var name := StripStringQuotes(key);
    var keyed := sink + [ObjectKey(name)];
    SettledClean(sink, ObjectKey(name));
    var colon := RequireNext(ts, keyed, pos, keyInfo);
    RequireSettles(ts, keyed, pos, keyInfo);
    if colon.out.Err? {
      SettledTrans(sink, keyed, colon.tags, false);
    } else if !colon.out.value.0.Colon? {
      SettledFail(sink, keyed, true, Tag.Error(ErrorInfo(ColonExpected(name), None), colon.out.value.1));
    } else {
      KvValueSettles(ts, keyed, name, colon.out.value.1, colon.pos);
      var r := KvValue(ts, keyed, name, colon.out.value.1, colon.pos);
      SettledTrans(sink, keyed, r.tags, r.out.matched);
    }
  }

  lemma KvValueSettles(ts: seq<TokenPair>, keyed: seq<Tag>, name: string, colonInfo: TokenInfo, pos: nat)
    requires pos <= |ts| && WellQuoted(ts)
    ensures var r := KvValue(ts, keyed, name, colonInfo, pos);
            Settled(keyed, r.tags, r.out.matched) && (!r.out.matched ==> |r.tags| > |keyed|)
    decreases |ts| - pos, 3
  {
    var v := RequireNext(ts, keyed, pos, colonInfo);
    RequireSettles(ts, keyed, pos, colonInfo);
    if v.out.Ok? {
      var missing := Tag.Error(ErrorInfo(ValueRequired(name), None), colonInfo);
      var value := Value(ts, keyed, v.out.value, v.pos);
      ValueSettles(ts, keyed, v.out.value, v.pos);
      if value.out.Ok? && value.out.value.matched {
        assert KvValue(ts, keyed, name, colonInfo, pos).tags == value.tags;
      } else {
        SettledFail(keyed, value.tags, value.out.Ok?, missing);
      }
    }
  }

  lemma ArraySettles(ts: seq<TokenPair>, sink: seq<Tag>, first: TokenPair, pos: nat)
    requires pos <= |ts| && WellQuoted(ts)
    ensures var r := Array(ts, sink, first, pos);
            Settled(sink, r.tags, r.out.Ok?) && (r.out.Err? ==> |r.tags| > |sink|)
    decreases |ts| - pos, 1
  {
    if !first.0.LeftBracket? {
      SettledRefl(sink);
    } else {
      var entered := sink + [BeginArray];
      SettledClean(sink, BeginArray);
      var n := RequireNext(ts, entered, pos, first.1);
      RequireSettles(ts, entered, pos, first.1);
      if n.out.Ok? {
        ArrayLoopSettles(ts, n.tags, first.1, n.out.value, n.pos, false, false);
        var r := ArrayLoop(ts, n.tags, first.1, n.out.value, n.pos, false, false);
        SettledTrans(sink, entered, r.tags, r.out.Ok?);
      } else {
        SettledTrans(sink, entered, n.tags, false);
      }
    }
  }

  lemma ArrayLoopSettles(ts: seq<TokenPair>, sink: seq<Tag>, startInfo: TokenInfo, next: TokenPair, pos: nat,
                         commaOrBracket: bool, valueRequired: bool)
    requires pos <= |ts| && WellQuoted(ts) && Strippable(next.0)
    ensures var r := ArrayLoop(ts, sink, startInfo, next, pos, commaOrBracket, valueRequired);
            Settled(sink, r.tags, r.out.Ok?) && (r.out.Err? ==> |r.tags| > |sink|)
    decreases |ts| - pos, 4
  {
    if next.0.Comma? {
      if commaOrBracket {
        ArrayAdvanceSettles(ts, sink, startInfo, pos, false, true);
      } else {
        FailSettles<bool>(sink, UnexpectedCommaInArray, next.1, pos);
      }
    } else if next.0.RightBracket? {
      if valueRequired {
        FailSettles<bool>(sink, ValueAfterComma, next.1, pos);
      } else {
        SettledClean(sink, EndArray);
      }
    } else if commaOrBracket {
      FailSettles<bool>(sink, CommaOrBracketExpected, next.1, pos);
    } else {
      var v := ArrayItem(ts, sink, next, pos);
      ArrayItemSettles(ts, sink, next, pos);
      if v.out.Ok? {
        if v.out.value.leftover.Some? {
          ArrayLoopSettles(ts, v.tags, startInfo, v.out.value.leftover.value, v.pos, true, false);
          var r := ArrayLoop(ts, v.tags, startInfo, v.out.value.leftover.value, v.pos, true, false);
          SettledTrans(sink, v.tags, r.tags, r.out.Ok?);
        } else {
          ArrayAdvanceSettles(ts, v.tags, startInfo, v.pos, true, false);
          var r := ArrayAdvance(ts, v.tags, startInfo, v.pos, true, false);
          SettledTrans(sink, v.tags, r.tags, r.out.Ok?);
        }
      }
    }
  }

  lemma ArrayItemSettles(ts: seq<TokenPair>, sink: seq<Tag>, next: TokenPair, pos: nat)
    requires pos <= |ts| && WellQuoted(ts) && Strippable(next.0)
    ensures var r := ArrayItem(ts, sink, next, pos);
            Settled(sink, r.tags, r.out.Ok?) && (r.out.Err? ==> |r.tags| > |sink|)
    decreases |ts| - pos, 3
  {
    var v := Value(ts, sink, next, pos);
    ValueSettles(ts, sink, next, pos);
    if v.out.Err? || !v.out.value.matched {
      SettledFail(sink, v.tags, v.out.Ok?, Tag.Error(ErrorInfo(ValueOrBracketExpected, None), next.1));
    }
  }

  lemma ArrayAdvanceSettles(ts: seq<TokenPair>, sink: seq<Tag>, startInfo: TokenInfo, pos: nat,
                            commaOrBracket: bool, valueRequired: bool)
    requires pos <= |ts| && WellQuoted(ts)
    ensures var r := ArrayAdvance(ts, sink, startInfo, pos, commaOrBracket, valueRequired);
            Settled(sink, r.tags, r.out.Ok?) && (r.out.Err? ==> |r.tags| > |sink|)
    decreases |ts| - pos, 3
  {
    var n := RequireNext(ts, sink, pos, startInfo);
    RequireSettles(ts, sink, pos, startInfo);
    if n.out.Ok? {
      ArrayLoopSettles(ts, n.tags, startInfo, n.out.value, n.pos, commaOrBracket, valueRequired);
    }
  }

  /** Whatever the token stream, the parser never resumes sending ordinary
      tags after an Error tag, and a stream whose parse contains an Error
      tag ends with one. */
  lemma ErrorsAreFinal(ts: seq<TokenPair>)
    requires WellQuoted(ts)
    ensures Aborted(Parse(ts)) || Clean(Parse(ts))
    ensures forall i, j :: 0 <= i < j < |Parse(ts)| && Parse(ts)[i].Error? ==> Parse(ts)[j].Error?
  {
    if |ts| > 0 && !ts[0].0.Error? {
      ValueSettles(ts, [], ts[0], 1);
      var tags := Value(ts, [], ts[0], 1).tags;
      assert tags[0..] == tags;
    }
  }

  // ---------------------------------------------------------------------
  // Round trip: the token form of a JSON value parses to its events
  // ---------------------------------------------------------------------

  datatype Sign = Plus | Minus

  /** The exponent of a number: `E`, an optional sign and the digits. */
  datatype Power = Power(sign: Option<Sign>, digits: string)

  /** A JSON value as the token stream presents it: a number is its integer
      digits, optional fraction digits and optional exponent. */
  datatype Json =
    | JNull
    | JTrue
    | JFalse
    | JString(body: string)
    | JNumber(negative: bool, integer: string, fraction: Option<string>, exponent: Option<Power>)
    | JArray(items: seq<Json>)
    | JObject(members: seq<Member>)

  datatype Member = Member(key: string, value: Json)

  function Quoted(s: string): (r: string)
    ensures |r| == |s| + 2
  {
    ['"'] + s + ['"']
  }

  function SignToks(s: Option<Sign>): seq<Token> {
    if s.None? then [] else if s.value == Plus then [PlusSign] else [MinusSign]
  }

  function PowerToks(e: Option<Power>): seq<Token> {
    if e.None? then [] else [Token.Exponent] + SignToks(e.value.sign) + [Integer(e.value.digits)]
  }

  function FractionToks(f: Option<string>): seq<Token> {
    if f.None? then [] else [Dot, Integer(f.value)]
  }

  /** The tokens of a value, with `,` between the items of an array and the
      pairs of an object. */
  function Toks(v: Json): seq<Token>
    decreases v
  {
    match v
    case JNull => [Token.NullLiteral]
    case JTrue => [Token.TrueLiteral]
    case JFalse => [Token.FalseLiteral]
    case JString(b) => [Token.StringLiteral(Quoted(b))]
    case JNumber(neg, i, f, e) =>
      (if neg then [MinusSign, Integer(i)] else [Integer(i)]) + (FractionToks(f) + PowerToks(e))
    case JArray(items) => [LeftBracket] + ItemsToks(items) + [RightBracket]
    case JObject(ms) => [LeftCurly] + MembersToks(ms) + [RightCurly]
  }

  function ItemsToks(items: seq<Json>): seq<Token>
    decreases items
  {
    if |items| == 0 then []
    else if |items| == 1 then Toks(items[0])
    else Toks(items[0]) + [Comma] + ItemsToks(items[1..])
  }

  function MemberToks(m: Member): seq<Token>
    decreases m
  {
    [Token.StringLiteral(Quoted(m.key)), Colon] + Toks(m.value)
  }

  function MembersToks(ms: seq<Member>): seq<Token>
    decreases ms
  {
    if |ms| == 0 then []
    else if |ms| == 1 then MemberToks(ms[0])
    else MemberToks(ms[0]) + [Comma] + MembersToks(ms[1..])
  }

  /** The text of a number as the parser reassembles it, the exponent
      marker always written `E`. */
  function NumberText(negative: bool, integer: string, fraction: Option<string>, exponent: Option<Power>): string {
    var whole := if negative then "-" + integer else integer;
    var fractional := if fraction.Some? then whole + "." + fraction.value else whole;
    PowerText(fractional, exponent)
  }

  function PowerText(text: string, e: Option<Power>): string {
    if e.None? then text
    else if e.value.sign.None? then text + "E" + e.value.digits
    else text + "E" + (if e.value.sign.value == Plus then "+" else "-") + e.value.digits
  }

  /** The tags a value is reported as. */
  function Events(v: Json): seq<Tag>
    decreases v
  {
    match v
    case JNull => [Tag.NullLiteral]
    case JTrue => [Tag.TrueLiteral]
    case JFalse => [Tag.FalseLiteral]
    case JString(b) => [Tag.StringLiteral(b)]
    case JNumber(neg, i, f, e) => [Number(NumberText(neg, i, f, e))]
    case JArray(items) => [BeginArray] + ItemsEvents(items) + [EndArray]
    case JObject(ms) => [BeginObject] + MembersEvents(ms) + [EndObject]
  }

  function ItemsEvents(items: seq<Json>): seq<Tag>
    decreases items
  {
    if |items| == 0 then [] else Events(items[0]) + ItemsEvents(items[1..])
  }

  function MemberEvents(m: Member): seq<Tag>
    decreases m
  {
    [ObjectKey(m.key)] + Events(m.value)
  }

  function MembersEvents(ms: seq<Member>): seq<Tag>
    decreases ms
  {
    if |ms| == 0 then [] else MemberEvents(ms[0]) + MembersEvents(ms[1..])
  }

  /** The token kinds `ks` appear in `ts` from index `q` on. */
  ghost predicate At(ts: seq<TokenPair>, q: nat, ks: seq<Token>)
    decreases |ks|
  {
    q + |ks| <= |ts| && (|ks| > 0 ==> ts[q].0 == ks[0] && At(ts, q + 1, ks[1..]))
  }

  /** The token after a value neither continues a number nor is a lexer
      error. */
  ghost predicate Ends(ts: seq<TokenPair>, k: nat) {
    k < |ts| ==> !ts[k].0.Dot? && !ts[k].0.Exponent? && !ts[k].0.Error?
  }

  /** A number without exponent is only known to be complete once the next
      token has been pulled; that token is handed back. */
  predicate Pulls(v: Json) {
    v.JNumber? && v.exponent.None?
  }

  /** What `try_value` returns for the value `v` whose tokens start at `q`:
      everything up to its last token is consumed, and a number without
      exponent also pulls the token after it and hands it back. */
  function Parsed(ts: seq<TokenPair>, sink: seq<Tag>, q: nat, v: Json): Res<Outcome<Attempt>> {
    var k := q + |Toks(v)|;
    if Pulls(v) && k < |ts| then Res(sink + Events(v), k + 1, Ok(Attempt(true, Some(ts[k]))))
    else Res(sink + Events(v), k, Ok(Attempt(true, None)))
  }

  // Token layout helpers

  lemma {:induction false} AtIndex(ts: seq<TokenPair>, q: nat, ks: seq<Token>, i: nat)
    requires At(ts, q, ks) && i < |ks|
    ensures q + i < |ts| && ts[q + i].0 == ks[i]
    decreases i
  {
    if i > 0 {
      AtIndex(ts, q + 1, ks[1..], i - 1);
    }
  }

  lemma {:induction false} AtSplit(ts: seq<TokenPair>, q: nat, a: seq<Token>, b: seq<Token>)
    requires At(ts, q, a + b)
    ensures At(ts, q, a) && At(ts, q + |a|, b)
    decreases |a|
  {
    if |a| == 0 {
      assert a + b == b;
    } else {
      assert (a + b)[0] == a[0];
      assert (a + b)[1..] == a[1..] + b;
      AtSplit(ts, q + 1, a[1..], b);
    }
  }

  lemma {:induction false} AtList(ts: seq<TokenPair>, q: nat, a: seq<Token>, b: seq<Token>, close: Token)
    requires At(ts, q, (a + [Comma] + b) + [close])
    ensures At(ts, q, a) && ts[q + |a|].0 == Comma && At(ts, q + |a| + 1, b + [close])
  {
    assert (a + [Comma] + b) + [close] == a + ([Comma] + (b + [close]));
    AtSplit(ts, q, a, [Comma] + (b + [close]));
    AtSplit(ts, q + |a|, [Comma], b + [close]);
  }

  lemma {:induction false} AtLast(ts: seq<TokenPair>, q: nat, a: seq<Token>, close: Token)
    requires At(ts, q, a + [close])
    ensures At(ts, q, a) && ts[q + |a|].0 == close
  {
    AtSplit(ts, q, a, [close]);
  }

  lemma {:induction false} AtWrapped(ts: seq<TokenPair>, q: nat, open: Token, mid: seq<Token>, close: Token)
    requires At(ts, q, [open] + mid + [close])
    ensures ts[q].0 == open && At(ts, q + 1, mid + [close])
  {
    assert [open] + mid + [close] == [open] + (mid + [close]);
    AtSplit(ts, q, [open], mid + [close]);
  }

  lemma {:induction false} AtPair(ts: seq<TokenPair>, q: nat, key: Token, rest: seq<Token>)
    requires At(ts, q, [key, Colon] + rest)
    ensures ts[q].0 == key && ts[q + 1].0 == Colon && At(ts, q + 2, rest)
  {
    AtSplit(ts, q, [key, Colon], rest);
    AtIndex(ts, q, [key, Colon], 1);
  }

  lemma {:induction false} AtNumber(ts: seq<TokenPair>, q: nat, lead: seq<Token>, f: Option<string>, e: Option<Power>)
    requires At(ts, q, lead + (FractionToks(f) + PowerToks(e)))
    ensures At(ts, q, lead) && At(ts, q + |lead|, FractionToks(f) + PowerToks(e))
  {
    AtSplit(ts, q, lead, FractionToks(f) + PowerToks(e));
  }

  lemma {:induction false} AppendAssoc(a: seq<Tag>, b: seq<Tag>, c: seq<Tag>)
    ensures (a + b) + c == a + (b + c)
  {
  }

  lemma {:induction false} Regroup(s: seq<Tag>, a: seq<Tag>, b: seq<Tag>, close: Tag)
    ensures (s + a) + b + [close] == s + (a + b) + [close]
  {
  }

  lemma {:induction false} Wrap(s: seq<Tag>, open: Tag, mid: seq<Tag>, close: Tag)
    ensures (s + [open]) + mid + [close] == s + ([open] + mid + [close])
  {
  }

  lemma {:induction false} AppendEmpty(a: seq<Tag>)
    ensures a + [] == a
  {
  }

  /** Every value starts with a token `try_value` recognises. */
  lemma FirstToken(v: Json)
    ensures |Toks(v)| > 0 && StartsValue(Toks(v)[0])
  {
  }

  lemma StripQuoted(b: string)
    ensures StripStringQuotes(Quoted(b)) == b
  {
    if |b| > 0 {
      assert Quoted(b)[1..|b| + 1] == b;
    }
  }

  // Numbers

  lemma PowerParsed(ts: seq<TokenPair>, sink: seq<Tag>, text: string, p: nat, e: Power)
    requires At(ts, p, PowerToks(Some(e)))
    ensures ExponentPart(ts, sink, text, ts[p], p + 1) ==
            Emit(sink, PowerText(text, Some(e)), p + |PowerToks(Some(e))|, None)
  {
    var ks := PowerToks(Some(e));
    assert ts[p].0 == ks[0] == Token.Exponent;
    AtIndex(ts, p, ks, 1);
    if e.sign.Some? {
      AtIndex(ts, p, ks, 2);
      assert ts[p + 1].0 == ks[1] == SignToks(e.sign)[0];
      assert ts[p + 2].0 == ks[2] == Integer(e.digits);
    } else {
      assert ts[p + 1].0 == ks[1] == Integer(e.digits);
    }
  }

  lemma FractionParsed(ts: seq<TokenPair>, sink: seq<Tag>, text: string, p: nat, f: Option<string>, e: Option<Power>)
    requires At(ts, p, FractionToks(f) + PowerToks(e))
    requires e.None? ==> Ends(ts, p + |FractionToks(f) + PowerToks(e)|)
    ensures var k := p + |FractionToks(f) + PowerToks(e)|;
            var t := PowerText(if f.Some? then text + "." + f.value else text, e);
            Fraction(ts, sink, text, p) ==
              if e.None? && k < |ts| then Emit(sink, t, k + 1, Some(ts[k])) else Emit(sink, t, k, None)
  {
    var fk := FractionToks(f);
    AtSplit(ts, p, fk, PowerToks(e));
    if f.Some? {
      AtIndex(ts, p, fk, 1);
      assert ts[p].0 == fk[0] == Dot && ts[p + 1].0 == fk[1] == Integer(f.value);
      var fractional := text + "." + f.value;
      if e.Some? {
        PowerParsed(ts, sink, fractional, p + 2, e.value);
      }
    } else if e.Some? {
      PowerParsed(ts, sink, text, p, e.value);
    }
  }

  lemma NumberParsed(ts: seq<TokenPair>, sink: seq<Tag>, q: nat, v: Json)
    requires v.JNumber? && At(ts, q, Toks(v)) && (Pulls(v) ==> Ends(ts, q + |Toks(v)|))
    ensures NumberValue(ts, sink, ts[q], q + 1) == Parsed(ts, sink, q, v)
  {
    if v.negative {
      NegativeParsed(ts, sink, q, v);
    } else {
      PositiveParsed(ts, sink, q, v);
    }
  }

  lemma NegativeParsed(ts: seq<TokenPair>, sink: seq<Tag>, q: nat, v: Json)
    requires v.JNumber? && v.negative && At(ts, q, Toks(v)) && (v.exponent.None? ==> Ends(ts, q + |Toks(v)|))
    ensures NumberValue(ts, sink, ts[q], q + 1) == Parsed(ts, sink, q, v)
  {
    var lead := [MinusSign, Integer(v.integer)];
    AtNumber(ts, q, lead, v.fraction, v.exponent);
    AtIndex(ts, q, lead, 1);
    assert ts[q].0 == lead[0] == MinusSign && ts[q + 1].0 == lead[1] == Integer(v.integer);
    FractionParsed(ts, sink, "-" + v.integer, q + 2, v.fraction, v.exponent);
  }

  lemma PositiveParsed(ts: seq<TokenPair>, sink: seq<Tag>, q: nat, v: Json)
    requires v.JNumber? && !v.negative && At(ts, q, Toks(v)) && (v.exponent.None? ==> Ends(ts, q + |Toks(v)|))
    ensures NumberValue(ts, sink, ts[q], q + 1) == Parsed(ts, sink, q, v)
  {
    var lead := [Integer(v.integer)];
    AtNumber(ts, q, lead, v.fraction, v.exponent);
    assert ts[q].0 == lead[0] == Integer(v.integer);
    FractionParsed(ts, sink, v.integer, q + 1, v.fraction, v.exponent);
  }

  // Values, arrays and objects
  //
  // The lemmas about values state what the parser returns through the three
  // predicates below, each naming one call of the parser; a lemma about a
  // loop takes what the rest of the loop returns, `r`, and concludes that
  // the loop from an earlier token returns the same.

  /** `try_value` on the token at `q` returns `r`. */
  ghost predicate ValueGives(ts: seq<TokenPair>, sink: seq<Tag>, q: nat, r: Res<Outcome<Attempt>>) {
    q < |ts| && WellQuoted(ts) && Value(ts, sink, ts[q], q + 1) == r
  }

  /** The loop of `try_array`, with the token at `p` in hand, returns `r`. */
  ghost predicate ItemsGive(ts: seq<TokenPair>, sink: seq<Tag>, startInfo: TokenInfo, p: nat,
                            commaOrBracket: bool, valueRequired: bool, r: Res<Outcome<bool>>) {
    p < |ts| && WellQuoted(ts) && ArrayLoop(ts, sink, startInfo, ts[p], p + 1, commaOrBracket, valueRequired) == r
  }

  /** The loop of `try_object`, with the token at `p` in hand, returns `r`. */
  ghost predicate PairsGive(ts: seq<TokenPair>, sink: seq<Tag>, startInfo: TokenInfo, p: nat,
                            commaOrCurly: bool, pairRequired: bool, r: Res<Outcome<bool>>) {
    p < |ts| && WellQuoted(ts) && ObjectLoop(ts, sink, startInfo, ts[p], p + 1, commaOrCurly, pairRequired) == r
  }

  lemma ValueParsed(ts: seq<TokenPair>, sink: seq<Tag>, q: nat, v: Json)
    requires WellQuoted(ts) && At(ts, q, Toks(v)) && (Pulls(v) ==> Ends(ts, q + |Toks(v)|))
    ensures ValueGives(ts, sink, q, Parsed(ts, sink, q, v))
    decreases v, 2
  {
    if v.JArray? {
      ArrayParsed(ts, sink, q, v);
    } else if v.JObject? {
      ObjectParsed(ts, sink, q, v);
    } else {
      ScalarParsed(ts, sink, q, v);
    }
  }

  lemma ScalarParsed(ts: seq<TokenPair>, sink: seq<Tag>, q: nat, v: Json)
    requires WellQuoted(ts) && At(ts, q, Toks(v)) && (Pulls(v) ==> Ends(ts, q + |Toks(v)|))
    requires !v.JArray? && !v.JObject?
    ensures ValueGives(ts, sink, q, Parsed(ts, sink, q, v))
  {
    var ks := Toks(v);
    AtIndex(ts, q, ks, 0);
    ScalarValue(ts, sink, q);
    var got := Parsed(ts, sink, q, v);
    if v.JNumber? {
      NumberParsed(ts, sink, q, v);
      assert got.out.value.matched;
    } else {
      assert got == Res(sink + Events(v), q + 1, Ok(Attempt(true, None)));
      if v.JString? {
        StripQuoted(v.body);
      }
    }
  }

  /** A token that opens neither an object nor an array is a scalar. */
  lemma ScalarValue(ts: seq<TokenPair>, sink: seq<Tag>, q: nat)
    requires q < |ts| && WellQuoted(ts) && !ts[q].0.LeftCurly? && !ts[q].0.LeftBracket?
    ensures Value(ts, sink, ts[q], q + 1) == Scalar(ts, sink, ts[q], q + 1)
  {
  }

  /** The tokens of a nonempty list start with those of its first item. */
  lemma ItemsHead(items: seq<Json>, close: Token)
    requires |items| > 0
    ensures (ItemsToks(items) + [close])[0] == Toks(items[0])[0]
    ensures StartsValue(Toks(items[0])[0])
  {
    FirstToken(items[0]);
  }

  lemma MembersHead(ms: seq<Member>, close: Token)
    requires |ms| > 0
    ensures (MembersToks(ms) + [close])[0] == Token.StringLiteral(Quoted(ms[0].key))
  {
  }

  lemma ArrayParsed(ts: seq<TokenPair>, sink: seq<Tag>, q: nat, v: Json)
    requires v.JArray? && WellQuoted(ts) && At(ts, q, Toks(v))
    ensures ValueGives(ts, sink, q, Parsed(ts, sink, q, v))
    decreases v, 1
  {
    var items := v.items;
    var body := ItemsToks(items) + [RightBracket];
    AtWrapped(ts, q, LeftBracket, ItemsToks(items), RightBracket);
    assert ts[q + 1].0 == body[0];
    var entered := sink + [BeginArray];
    if |items| == 0 {
      CloseArray(ts, entered, ts[q].1, q + 1, false);
      AppendEmpty(entered);
    } else {
      ItemsHead(items, RightBracket);
      ItemsParsed(ts, entered, ts[q].1, q + 1, items, false);
    }
    OpenArray(ts, sink, q, entered + ItemsEvents(items) + [EndArray], q + |Toks(v)|);
    Wrap(sink, BeginArray, ItemsEvents(items), EndArray);
  }

  /** The loop of `try_array` over the items `items`, positioned on the
      first token of the first one. */
  lemma ItemsParsed(ts: seq<TokenPair>, sink: seq<Tag>, startInfo: TokenInfo, p: nat, items: seq<Json>, valueRequired: bool)
    requires |items| > 0 && WellQuoted(ts) && At(ts, p, ItemsToks(items) + [RightBracket])
    ensures ItemsGive(ts, sink, startInfo, p, false, valueRequired,
                      Res(sink + ItemsEvents(items) + [EndArray], p + |ItemsToks(items)| + 1, Ok(true)))
    decreases items, 2
  {
    if |items| == 1 {
      LastItem(ts, sink, startInfo, p, items, valueRequired);
    } else {
      MoreItems(ts, sink, startInfo, p, items, valueRequired);
    }
  }

  lemma LastItem(ts: seq<TokenPair>, sink: seq<Tag>, startInfo: TokenInfo, p: nat, items: seq<Json>, valueRequired: bool)
    requires |items| == 1 && WellQuoted(ts) && At(ts, p, ItemsToks(items) + [RightBracket])
    ensures ItemsGive(ts, sink, startInfo, p, false, valueRequired,
                      Res(sink + ItemsEvents(items) + [EndArray], p + |ItemsToks(items)| + 1, Ok(true)))
    decreases items, 1
  {
    var v := items[0];
    var k := p + |Toks(v)|;
    var after := sink + Events(v);
    AtLast(ts, p, Toks(v), RightBracket);
    CloseArray(ts, after, startInfo, k, true);
    ItemTurn(ts, sink, startInfo, p, v, valueRequired, Res(after + [EndArray], k + 1, Ok(true)));
    AppendEmpty(Events(v));
  }

  lemma MoreItems(ts: seq<TokenPair>, sink: seq<Tag>, startInfo: TokenInfo, p: nat, items: seq<Json>, valueRequired: bool)
    requires |items| > 1 && WellQuoted(ts) && At(ts, p, ItemsToks(items) + [RightBracket])
    ensures ItemsGive(ts, sink, startInfo, p, false, valueRequired,
                      Res(sink + ItemsEvents(items) + [EndArray], p + |ItemsToks(items)| + 1, Ok(true)))
    decreases items, 1
  {
    var v := items[0];
    var k := p + |Toks(v)|;
    var after := sink + Events(v);
    var rest := items[1..];
    var r := Res(sink + ItemsEvents(items) + [EndArray], p + |ItemsToks(items)| + 1, Ok(true));
    AtList(ts, p, Toks(v), ItemsToks(rest), RightBracket);
    ItemsHead(rest, RightBracket);
    assert ts[k + 1].0 == (ItemsToks(rest) + [RightBracket])[0];
    ItemsParsed(ts, after, startInfo, k + 1, rest, true);
    Regroup(sink, Events(v), ItemsEvents(rest), EndArray);
    CommaInArray(ts, after, startInfo, k, r);
    ItemTurn(ts, sink, startInfo, p, v, valueRequired, r);
  }

  /** One turn of the array loop over the item `v`, followed by `,` or `]`. */
  lemma ItemTurn(ts: seq<TokenPair>, sink: seq<Tag>, startInfo: TokenInfo, p: nat, v: Json, valueRequired: bool,
                 r: Res<Outcome<bool>>)
    requires WellQuoted(ts) && At(ts, p, Toks(v))
    requires p + |Toks(v)| < |ts| && (ts[p + |Toks(v)|].0.Comma? || ts[p + |Toks(v)|].0.RightBracket?)
    requires ItemsGive(ts, sink + Events(v), startInfo, p + |Toks(v)|, true, false, r)
    ensures ItemsGive(ts, sink, startInfo, p, false, valueRequired, r)
    decreases v, 3
  {
    var ks := Toks(v);
    var k := p + |ks|;
    FirstToken(v);
    AtIndex(ts, p, ks, 0);
    assert Ends(ts, k);
    ValueParsed(ts, sink, p, v);
    var got := Parsed(ts, sink, p, v);
    if Pulls(v) {
      assert got == Res(sink + Events(v), k + 1, Ok(Attempt(true, Some(ts[k]))));
      ItemPulls(ts, sink, startInfo, p, valueRequired, sink + Events(v), k, got, r);
    } else {
      assert got == Res(sink + Events(v), k, Ok(Attempt(true, None)));
      ItemEnds(ts, sink, startInfo, p, valueRequired, sink + Events(v), k, got, r);
    }
  }

  /** An item that handed back the token after it: the loop resumes on it. */
  lemma ItemPulls(ts: seq<TokenPair>, sink: seq<Tag>, startInfo: TokenInfo, p: nat, valueRequired: bool,
                  tags: seq<Tag>, k: nat, got: Res<Outcome<Attempt>>, r: Res<Outcome<bool>>)
    requires p < |ts| && StartsValue(ts[p].0) && k < |ts|
    requires got == Res(tags, k + 1, Ok(Attempt(true, Some(ts[k])))) && ValueGives(ts, sink, p, got)
    requires ItemsGive(ts, tags, startInfo, k, true, false, r)
    ensures ItemsGive(ts, sink, startInfo, p, false, valueRequired, r)
  {
    ItemGives(ts, sink, p, got);
  }

  /** An item that ended on its own last token: the loop loads the next one. */
  lemma ItemEnds(ts: seq<TokenPair>, sink: seq<Tag>, startInfo: TokenInfo, p: nat, valueRequired: bool,
                 tags: seq<Tag>, k: nat, got: Res<Outcome<Attempt>>, r: Res<Outcome<bool>>)
    requires p < |ts| && StartsValue(ts[p].0) && k < |ts| && !ts[k].0.Error?
    requires got == Res(tags, k, Ok(Attempt(true, None))) && ValueGives(ts, sink, p, got)
    requires ItemsGive(ts, tags, startInfo, k, true, false, r)
    ensures ItemsGive(ts, sink, startInfo, p, false, valueRequired, r)
  {
    ItemGives(ts, sink, p, got);
    ArrayResumes(ts, tags, startInfo, k, true, false, r);
  }

  /** A value that matched inside an array is that item's result. */
  lemma ItemGives(ts: seq<TokenPair>, sink: seq<Tag>, p: nat, r: Res<Outcome<Attempt>>)
    requires p < |ts| && StartsValue(ts[p].0) && r.out.Ok? && r.out.value.matched && ValueGives(ts, sink, p, r)
    ensures ArrayItem(ts, sink, ts[p], p + 1) == r
  {
  }

  /** An array opens with `[`; what its loop returns is what the value returns. */
  lemma OpenArray(ts: seq<TokenPair>, sink: seq<Tag>, q: nat, tags: seq<Tag>, k: nat)
    requires q + 1 < |ts| && ts[q].0.LeftBracket? && !ts[q + 1].0.Error?
    requires ItemsGive(ts, sink + [BeginArray], ts[q].1, q + 1, false, false, Res(tags, k, Ok(true)))
    ensures ValueGives(ts, sink, q, Res(tags, k, Ok(Attempt(true, None))))
  {
    assert Array(ts, sink, ts[q], q + 1) == ArrayLoop(ts, sink + [BeginArray], ts[q].1, ts[q + 1], q + 2, false, false);
  }

  lemma CloseArray(ts: seq<TokenPair>, sink: seq<Tag>, startInfo: TokenInfo, k: nat, commaOrBracket: bool)
    requires k < |ts| && WellQuoted(ts) && ts[k].0.RightBracket?
    ensures ItemsGive(ts, sink, startInfo, k, commaOrBracket, false, Res(sink + [EndArray], k + 1, Ok(true)))
  {
  }

  lemma CommaInArray(ts: seq<TokenPair>, sink: seq<Tag>, startInfo: TokenInfo, k: nat, r: Res<Outcome<bool>>)
    requires k + 1 < |ts| && ts[k].0.Comma? && !ts[k + 1].0.Error?
    requires ItemsGive(ts, sink, startInfo, k + 1, false, true, r)
    ensures ItemsGive(ts, sink, startInfo, k, true, false, r)
  {
    ArrayResumes(ts, sink, startInfo, k + 1, false, true, r);
  }

  /** Loading the next token of an array hands it to the loop. */
  lemma ArrayResumes(ts: seq<TokenPair>, sink: seq<Tag>, startInfo: TokenInfo, k: nat,
                     commaOrBracket: bool, valueRequired: bool, r: Res<Outcome<bool>>)
    requires k < |ts| && !ts[k].0.Error? && ItemsGive(ts, sink, startInfo, k, commaOrBracket, valueRequired, r)
    ensures ArrayAdvance(ts, sink, startInfo, k, commaOrBracket, valueRequired) == r
  {
  }

  lemma ObjectParsed(ts: seq<TokenPair>, sink: seq<Tag>, q: nat, v: Json)
    requires v.JObject? && WellQuoted(ts) && At(ts, q, Toks(v))
    ensures ValueGives(ts, sink, q, Parsed(ts, sink, q, v))
    decreases v, 1
  {
    var ms := v.members;
    var body := MembersToks(ms) + [RightCurly];
    AtWrapped(ts, q, LeftCurly, MembersToks(ms), RightCurly);
    assert ts[q + 1].0 == body[0];
    var entered := sink + [BeginObject];
    if |ms| == 0 {
      CloseObject(ts, entered, ts[q].1, q + 1, false);
      AppendEmpty(entered);
    } else {
      MembersHead(ms, RightCurly);
      MembersParsed(ts, entered, ts[q].1, q + 1, ms, false);
    }
    OpenObject(ts, sink, q, entered + MembersEvents(ms) + [EndObject], q + |Toks(v)|);
    Wrap(sink, BeginObject, MembersEvents(ms), EndObject);
  }

  /** The loop of `try_object` over the pairs `ms`, positioned on the first
      key. */
  lemma MembersParsed(ts: seq<TokenPair>, sink: seq<Tag>, startInfo: TokenInfo, p: nat, ms: seq<Member>, pairRequired: bool)
    requires |ms| > 0 && WellQuoted(ts) && At(ts, p, MembersToks(ms) + [RightCurly])
    ensures PairsGive(ts, sink, startInfo, p, false, pairRequired,
                      Res(sink + MembersEvents(ms) + [EndObject], p + |MembersToks(ms)| + 1, Ok(true)))
    decreases ms, 2
  {
    if |ms| == 1 {
      LastMember(ts, sink, startInfo, p, ms, pairRequired);
    } else {
      MoreMembers(ts, sink, startInfo, p, ms, pairRequired);
    }
  }

  lemma LastMember(ts: seq<TokenPair>, sink: seq<Tag>, startInfo: TokenInfo, p: nat, ms: seq<Member>, pairRequired: bool)
    requires |ms| == 1 && WellQuoted(ts) && At(ts, p, MembersToks(ms) + [RightCurly])
    ensures PairsGive(ts, sink, startInfo, p, false, pairRequired,
                      Res(sink + MembersEvents(ms) + [EndObject], p + |MembersToks(ms)| + 1, Ok(true)))
    decreases ms, 1
  {
    var m := ms[0];
    var k := p + |MemberToks(m)|;
    var after := sink + MemberEvents(m);
    AtLast(ts, p, MemberToks(m), RightCurly);
    CloseObject(ts, after, startInfo, k, true);
    PairTurn(ts, sink, startInfo, p, m, pairRequired, Res(after + [EndObject], k + 1, Ok(true)));
    AppendEmpty(MemberEvents(m));
  }

  lemma MoreMembers(ts: seq<TokenPair>, sink: seq<Tag>, startInfo: TokenInfo, p: nat, ms: seq<Member>, pairRequired: bool)
    requires |ms| > 1 && WellQuoted(ts) && At(ts, p, MembersToks(ms) + [RightCurly])
    ensures PairsGive(ts, sink, startInfo, p, false, pairRequired,
                      Res(sink + MembersEvents(ms) + [EndObject], p + |MembersToks(ms)| + 1, Ok(true)))
    decreases ms, 1
  {
    var m := ms[0];
    var k := p + |MemberToks(m)|;
    var after := sink + MemberEvents(m);
    var rest := ms[1..];
    var r := Res(sink + MembersEvents(ms) + [EndObject], p + |MembersToks(ms)| + 1, Ok(true));
    AtList(ts, p, MemberToks(m), MembersToks(rest), RightCurly);
    MembersHead(rest, RightCurly);
    assert ts[k + 1].0 == (MembersToks(rest) + [RightCurly])[0];
    MembersParsed(ts, after, startInfo, k + 1, rest, true);
    Regroup(sink, MemberEvents(m), MembersEvents(rest), EndObject);
    CommaInObject(ts, after, startInfo, k, r);
    PairTurn(ts, sink, startInfo, p, m, pairRequired, r);
  }

  /** One turn of the object loop over the pair `m`, followed by `,` or `}`:
      the key tag, then the value's. */
  lemma PairTurn(ts: seq<TokenPair>, sink: seq<Tag>, startInfo: TokenInfo, p: nat, m: Member, pairRequired: bool,
                 r: Res<Outcome<bool>>)
    requires WellQuoted(ts) && At(ts, p, MemberToks(m))
    requires p + |MemberToks(m)| < |ts| && (ts[p + |MemberToks(m)|].0.Comma? || ts[p + |MemberToks(m)|].0.RightCurly?)
    requires PairsGive(ts, sink + MemberEvents(m), startInfo, p + |MemberToks(m)|, true, false, r)
    ensures PairsGive(ts, sink, startInfo, p, false, pairRequired, r)
    decreases m, 3
  {
    PairLayout(ts, sink, p, m);
    PairValueTurn(ts, sink, startInfo, p, m.key, m.value, pairRequired, r);
  }

  /** Where the key, the colon and the value of a pair sit, and the tags
      it stands for. */
  lemma PairLayout(ts: seq<TokenPair>, sink: seq<Tag>, p: nat, m: Member)
    requires At(ts, p, MemberToks(m))
    ensures p + |MemberToks(m)| == p + 2 + |Toks(m.value)| && p + 2 < |ts|
    ensures ts[p].0 == Token.StringLiteral(Quoted(m.key)) && ts[p + 1].0.Colon?
    ensures At(ts, p + 2, Toks(m.value)) && StartsValue(ts[p + 2].0)
    ensures sink + MemberEvents(m) == (sink + [ObjectKey(m.key)]) + Events(m.value)
  {
    var ks := Toks(m.value);
    assert MemberToks(m) == [Token.StringLiteral(Quoted(m.key)), Colon] + ks;
    AtPair(ts, p, Token.StringLiteral(Quoted(m.key)), ks);
    FirstToken(m.value);
    AtIndex(ts, p + 2, ks, 0);
    AppendAssoc(sink, [ObjectKey(m.key)], Events(m.value));
  }

  /** The value of a pair, laid out at `p + 2`, followed by `,` or `}`. */
  lemma PairValueTurn(ts: seq<TokenPair>, sink: seq<Tag>, startInfo: TokenInfo, p: nat, key: string, v: Json, pairRequired: bool,
                      r: Res<Outcome<bool>>)
    requires p + 2 + |Toks(v)| < |ts| && WellQuoted(ts)
    requires ts[p].0 == Token.StringLiteral(Quoted(key)) && ts[p + 1].0.Colon?
    requires At(ts, p + 2, Toks(v)) && StartsValue(ts[p + 2].0)
    requires ts[p + 2 + |Toks(v)|].0.Comma? || ts[p + 2 + |Toks(v)|].0.RightCurly?
    requires PairsGive(ts, (sink + [ObjectKey(key)]) + Events(v), startInfo, p + 2 + |Toks(v)|, true, false, r)
    ensures PairsGive(ts, sink, startInfo, p, false, pairRequired, r)
    decreases v, 3
  {
    var keyed := sink + [ObjectKey(key)];
    var k := p + 2 + |Toks(v)|;
    assert Ends(ts, k);
    ValueParsed(ts, keyed, p + 2, v);
    var got := Parsed(ts, keyed, p + 2, v);
    if Pulls(v) {
      assert got == Res(keyed + Events(v), k + 1, Ok(Attempt(true, Some(ts[k]))));
      PairPulls(ts, sink, startInfo, p, key, false, pairRequired, keyed + Events(v), k, got, r);
    } else {
      assert got == Res(keyed + Events(v), k, Ok(Attempt(true, None)));
      PairEnds(ts, sink, startInfo, p, key, false, pairRequired, keyed + Events(v), k, got, r);
    }
  }

  /** A pair whose value handed back the token after it. A key is taken
      whether or not a comma came before it (`commaOrCurly`). */
  lemma PairPulls(ts: seq<TokenPair>, sink: seq<Tag>, startInfo: TokenInfo, p: nat, key: string, commaOrCurly: bool, pairRequired: bool,
                  tags: seq<Tag>, k: nat, got: Res<Outcome<Attempt>>, r: Res<Outcome<bool>>)
    requires p + 2 < |ts| && ts[p].0 == Token.StringLiteral(Quoted(key)) && ts[p + 1].0.Colon? && StartsValue(ts[p + 2].0) && k < |ts|
    requires got == Res(tags, k + 1, Ok(Attempt(true, Some(ts[k])))) && ValueGives(ts, sink + [ObjectKey(key)], p + 2, got)
    requires PairsGive(ts, tags, startInfo, k, true, false, r)
    ensures PairsGive(ts, sink, startInfo, p, commaOrCurly, pairRequired, r)
  {
    PairGives(ts, sink, p, key, got);
  }

  /** A pair whose value ended on its own last token: the loop loads the
      next one. A key is taken whether or not a comma came before it. */
  lemma PairEnds(ts: seq<TokenPair>, sink: seq<Tag>, startInfo: TokenInfo, p: nat, key: string, commaOrCurly: bool, pairRequired: bool,
                 tags: seq<Tag>, k: nat, got: Res<Outcome<Attempt>>, r: Res<Outcome<bool>>)
    requires p + 2 < |ts| && ts[p].0 == Token.StringLiteral(Quoted(key)) && ts[p + 1].0.Colon? && StartsValue(ts[p + 2].0) && k < |ts| && !ts[k].0.Error?
    requires got == Res(tags, k, Ok(Attempt(true, None))) && ValueGives(ts, sink + [ObjectKey(key)], p + 2, got)
    requires PairsGive(ts, tags, startInfo, k, true, false, r)
    ensures PairsGive(ts, sink, startInfo, p, commaOrCurly, pairRequired, r)
  {
    PairGives(ts, sink, p, key, got);
    ObjectResumes(ts, tags, startInfo, k, true, false, r);
  }

  /** A pair whose value matched returns what the value returned. */
  lemma PairGives(ts: seq<TokenPair>, sink: seq<Tag>, p: nat, key: string, r: Res<Outcome<Attempt>>)
    requires p + 2 < |ts| && ts[p].0 == Token.StringLiteral(Quoted(key)) && ts[p + 1].0.Colon? && StartsValue(ts[p + 2].0)
    requires r.out.Ok? && r.out.value.matched && ValueGives(ts, sink + [ObjectKey(key)], p + 2, r)
    ensures KvPair(ts, sink, ts[p].0.text, ts[p].1, p + 1) == Res(r.tags, r.pos, r.out.value)
  {
    PairValue(ts, sink, p, key);
    assert KvValue(ts, sink + [ObjectKey(key)], key, ts[p + 1].1, p + 2) == Res(r.tags, r.pos, r.out.value);
  }

  /** A key followed by `:` sends the key tag and goes on to the value. */
  lemma PairValue(ts: seq<TokenPair>, sink: seq<Tag>, p: nat, key: string)
    requires p + 1 < |ts| && WellQuoted(ts) && ts[p].0 == Token.StringLiteral(Quoted(key)) && ts[p + 1].0.Colon?
    ensures KvPair(ts, sink, ts[p].0.text, ts[p].1, p + 1) == KvValue(ts, sink + [ObjectKey(key)], key, ts[p + 1].1, p + 2)
  {
    StripQuoted(key);
  }

  /** An object opens with `{`; what its loop returns is what the value returns. */
  lemma OpenObject(ts: seq<TokenPair>, sink: seq<Tag>, q: nat, tags: seq<Tag>, k: nat)
    requires q + 1 < |ts| && ts[q].0.LeftCurly? && !ts[q + 1].0.Error?
    requires PairsGive(ts, sink + [BeginObject], ts[q].1, q + 1, false, false, Res(tags, k, Ok(true)))
    ensures ValueGives(ts, sink, q, Res(tags, k, Ok(Attempt(true, None))))
  {
    assert Object(ts, sink, ts[q], q + 1) == ObjectLoop(ts, sink + [BeginObject], ts[q].1, ts[q + 1], q + 2, false, false);
  }

  lemma CloseObject(ts: seq<TokenPair>, sink: seq<Tag>, startInfo: TokenInfo, k: nat, commaOrCurly: bool)
    requires k < |ts| && WellQuoted(ts) && ts[k].0.RightCurly?
    ensures PairsGive(ts, sink, startInfo, k, commaOrCurly, false, Res(sink + [EndObject], k + 1, Ok(true)))
  {
  }

  lemma CommaInObject(ts: seq<TokenPair>, sink: seq<Tag>, startInfo: TokenInfo, k: nat, r: Res<Outcome<bool>>)
    requires k + 1 < |ts| && ts[k].0.Comma? && !ts[k + 1].0.Error?
    requires PairsGive(ts, sink, startInfo, k + 1, false, true, r)
    ensures PairsGive(ts, sink, startInfo, k, true, false, r)
  {
    ObjectResumes(ts, sink, startInfo, k + 1, false, true, r);
  }

  /** Loading the next token of an object hands it to the loop. */
  lemma ObjectResumes(ts: seq<TokenPair>, sink: seq<Tag>, startInfo: TokenInfo, k: nat,
                      commaOrCurly: bool, pairRequired: bool, r: Res<Outcome<bool>>)
    requires k < |ts| && !ts[k].0.Error? && PairsGive(ts, sink, startInfo, k, commaOrCurly, pairRequired, r)
    ensures ObjectAdvance(ts, sink, startInfo, k, commaOrCurly, pairRequired) == r
  {
  }

  // Error reports

  /** A token that starts no value: `try_value` fails and sends nothing. */
  lemma NoValue(ts: seq<TokenPair>, sink: seq<Tag>, q: nat)
    requires q < |ts| && WellQuoted(ts) && !StartsValue(ts[q].0)
    ensures ValueGives(ts, sink, q, Res(sink, q + 1, Err))
  {
  }

  /** An array whose loop fails fails the value, adding nothing. */
  lemma ArrayAborts(ts: seq<TokenPair>, sink: seq<Tag>, q: nat, r: Res<Outcome<bool>>)
    requires q + 1 < |ts| && ts[q].0.LeftBracket? && !ts[q + 1].0.Error? && r.out.Err?
    requires ItemsGive(ts, sink + [BeginArray], ts[q].1, q + 1, false, false, r)
    ensures ValueGives(ts, sink, q, Res(r.tags, r.pos, Err))
  {
    assert Array(ts, sink, ts[q], q + 1) == ArrayLoop(ts, sink + [BeginArray], ts[q].1, ts[q + 1], q + 2, false, false);
  }

  /** An object whose loop fails fails the value, adding nothing. */
  lemma ObjectAborts(ts: seq<TokenPair>, sink: seq<Tag>, q: nat, r: Res<Outcome<bool>>)
    requires q + 1 < |ts| && ts[q].0.LeftCurly? && !ts[q + 1].0.Error? && r.out.Err?
    requires PairsGive(ts, sink + [BeginObject], ts[q].1, q + 1, false, false, r)
    ensures ValueGives(ts, sink, q, Res(r.tags, r.pos, Err))
  {
    assert Object(ts, sink, ts[q], q + 1) == ObjectLoop(ts, sink + [BeginObject], ts[q].1, ts[q + 1], q + 2, false, false);
  }

  /** An item that is not a value is reported once more, at its first
      token, after whatever the value attempt sent. */
  lemma ItemRejected(ts: seq<TokenPair>, sink: seq<Tag>, startInfo: TokenInfo, p: nat, valueRequired: bool,
                     got: Res<Outcome<Attempt>>)
    requires p < |ts| && !ts[p].0.Comma? && !ts[p].0.RightBracket?
    requires ValueGives(ts, sink, p, got) && (got.out.Err? || !got.out.value.matched)
    ensures ItemsGive(ts, sink, startInfo, p, false, valueRequired,
                      Res(got.tags + [Tag.Error(ErrorInfo(ValueOrBracketExpected, None), ts[p].1)], got.pos, Err))
  {
    assert ArrayItem(ts, sink, ts[p], p + 1) == Fail(got.tags, ValueOrBracketExpected, ts[p].1, got.pos);
  }

  /** A comma where an item or `]` should be. */
  lemma ArrayCommaRejected(ts: seq<TokenPair>, sink: seq<Tag>, startInfo: TokenInfo, p: nat, valueRequired: bool)
    requires p < |ts| && WellQuoted(ts) && ts[p].0.Comma?
    ensures ItemsGive(ts, sink, startInfo, p, false, valueRequired,
                      Res(sink + [Tag.Error(ErrorInfo(UnexpectedCommaInArray, None), ts[p].1)], p + 1, Err))
  {
  }

  /** A comma where a pair or `}` should be. */
  lemma ObjectCommaRejected(ts: seq<TokenPair>, sink: seq<Tag>, startInfo: TokenInfo, p: nat, pairRequired: bool)
    requires p < |ts| && WellQuoted(ts) && ts[p].0.Comma?
    ensures PairsGive(ts, sink, startInfo, p, false, pairRequired,
                      Res(sink + [Tag.Error(ErrorInfo(UnexpectedCommaInObject, None), ts[p].1)], p + 1, Err))
  {
  }

  /** Anything but a key, `,` or `}` right after `{`. */
  lemma PairOrCurlyRejected(ts: seq<TokenPair>, sink: seq<Tag>, startInfo: TokenInfo, p: nat)
    requires p < |ts| && WellQuoted(ts)
    requires !ts[p].0.StringLiteral? && !ts[p].0.Comma? && !ts[p].0.RightCurly?
    ensures PairsGive(ts, sink, startInfo, p, false, false,
                      Res(sink + [Tag.Error(ErrorInfo(PairOrCurlyExpected, None), ts[p].1)], p + 1, Err))
  {
  }

  /** A key not followed by `:`: the key is sent, then the error, at the
      token found instead. */
  lemma ColonMissing(ts: seq<TokenPair>, sink: seq<Tag>, startInfo: TokenInfo, p: nat, key: string,
                     commaOrCurly: bool, pairRequired: bool)
    requires p + 1 < |ts| && WellQuoted(ts) && ts[p].0 == Token.StringLiteral(Quoted(key))
    requires !ts[p + 1].0.Colon? && !ts[p + 1].0.Error?
    ensures PairsGive(ts, sink, startInfo, p, commaOrCurly, pairRequired,
                      Res(sink + [ObjectKey(key), Tag.Error(ErrorInfo(ColonExpected(key), None), ts[p + 1].1)], p + 2, Err))
  {
    StripQuoted(key);
    assert KvPair(ts, sink, ts[p].0.text, ts[p].1, p + 1)
        == Res(sink + [ObjectKey(key), Tag.Error(ErrorInfo(ColonExpected(key), None), ts[p + 1].1)], p + 2, Attempt(false, None));
  }

  /** A key and `:` followed by no value: after whatever the value attempt
      sent, the missing value is reported at the colon, naming the key. */
  lemma ValueMissing(ts: seq<TokenPair>, sink: seq<Tag>, startInfo: TokenInfo, p: nat, key: string,
                     commaOrCurly: bool, pairRequired: bool, got: Res<Outcome<Attempt>>)
    requires p + 2 < |ts| && ts[p].0 == Token.StringLiteral(Quoted(key)) && ts[p + 1].0.Colon? && !ts[p + 2].0.Error?
    requires ValueGives(ts, sink + [ObjectKey(key)], p + 2, got) && got.out.Err?
    ensures PairsGive(ts, sink, startInfo, p, commaOrCurly, pairRequired,
                      Res(got.tags + [Tag.Error(ErrorInfo(ValueRequired(key), None), ts[p + 1].1)], got.pos, Err))
  {
    PairValue(ts, sink, p, key);
    assert KvValue(ts, sink + [ObjectKey(key)], key, ts[p + 1].1, p + 2)
        == Res(got.tags + [Tag.Error(ErrorInfo(ValueRequired(key), None), ts[p + 1].1)], got.pos, Attempt(false, None));
  }

  /** `]` right after a comma in an array. */
  lemma BracketAfterComma(ts: seq<TokenPair>, sink: seq<Tag>, startInfo: TokenInfo, p: nat)
    requires p < |ts| && WellQuoted(ts) && ts[p].0.RightBracket?
    ensures ItemsGive(ts, sink, startInfo, p, false, true,
                      Res(sink + [Tag.Error(ErrorInfo(ValueAfterComma, None), ts[p].1)], p + 1, Err))
  {
  }

  /** Anything but `,` or `]` after an item: two values with no comma
      between them. */
  lemma CommaMissingInArray(ts: seq<TokenPair>, sink: seq<Tag>, startInfo: TokenInfo, p: nat)
    requires p < |ts| && WellQuoted(ts) && !ts[p].0.Comma? && !ts[p].0.RightBracket?
    ensures ItemsGive(ts, sink, startInfo, p, true, false,
                      Res(sink + [Tag.Error(ErrorInfo(CommaOrBracketExpected, None), ts[p].1)], p + 1, Err))
  {
  }

  /** `}` right after a comma in an object. */
  lemma CurlyAfterComma(ts: seq<TokenPair>, sink: seq<Tag>, startInfo: TokenInfo, p: nat)
    requires p < |ts| && WellQuoted(ts) && ts[p].0.RightCurly?
    ensures PairsGive(ts, sink, startInfo, p, false, true,
                      Res(sink + [Tag.Error(ErrorInfo(PairAfterComma, None), ts[p].1)], p + 1, Err))
  {
  }

  /** After a comma in an object only a key or `}` may come; after a pair,
      anything but a key, `,` or `}` is rejected. */
  lemma PairOrCommaRejected(ts: seq<TokenPair>, sink: seq<Tag>, startInfo: TokenInfo, p: nat)
    requires p < |ts| && WellQuoted(ts)
    requires !ts[p].0.StringLiteral? && !ts[p].0.Comma? && !ts[p].0.RightCurly?
    ensures PairsGive(ts, sink, startInfo, p, false, true,
                      Res(sink + [Tag.Error(ErrorInfo(PairExpected, None), ts[p].1)], p + 1, Err))
    ensures PairsGive(ts, sink, startInfo, p, true, false,
                      Res(sink + [Tag.Error(ErrorInfo(CommaOrCurlyExpected, None), ts[p].1)], p + 1, Err))
  {
  }

  /** `-` followed by a token other than digits. */
  lemma MinusRejected(ts: seq<TokenPair>, sink: seq<Tag>, q: nat)
    requires q + 1 < |ts| && WellQuoted(ts) && ts[q].0.MinusSign?
    requires !ts[q + 1].0.Integer? && !ts[q + 1].0.Error?
    ensures ValueGives(ts, sink, q, Res(sink + [Tag.Error(ErrorInfo(DigitsAfterMinus, None), ts[q + 1].1)], q + 2, Err))
  {
    assert Value(ts, sink, ts[q], q + 1) == Scalar(ts, sink, ts[q], q + 1);
  }

  /** `.` followed by a token other than digits; the error is placed at the
      `.`. */
  lemma DotRejected(ts: seq<TokenPair>, sink: seq<Tag>, q: nat)
    requires q + 2 < |ts| && WellQuoted(ts) && ts[q].0.Integer? && ts[q + 1].0.Dot?
    requires !ts[q + 2].0.Integer? && !ts[q + 2].0.Error?
    ensures ValueGives(ts, sink, q, Res(sink + [Tag.Error(ErrorInfo(FractionDigitsExpected, None), ts[q + 1].1)], q + 3, Err))
  {
    assert Value(ts, sink, ts[q], q + 1) == Scalar(ts, sink, ts[q], q + 1);
  }

  /** An exponent marker that ends the stream, with or without a sign after
      it; the error is placed at the last token. */
  lemma ExponentCutOff(ts: seq<TokenPair>, sink: seq<Tag>, q: nat)
    requires q + 2 <= |ts| <= q + 3 && WellQuoted(ts) && ts[q].0.Integer? && ts[q + 1].0.Exponent?
    requires |ts| == q + 3 ==> ts[q + 2].0.PlusSign? || ts[q + 2].0.MinusSign?
    ensures ValueGives(ts, sink, q, Res(sink + [Tag.Error(ErrorInfo(ExponentDigitsExpected, None), ts[|ts| - 1].1)], |ts|, Err))
  {
    assert Value(ts, sink, ts[q], q + 1) == Scalar(ts, sink, ts[q], q + 1);
    assert Fraction(ts, sink, ts[q].0.digits, q + 1) == ExponentPart(ts, sink, ts[q].0.digits, ts[q + 1], q + 2);
  }

  /** An exponent marker followed by neither a sign nor digits: reported
      with the message about digits after `-`. */
  lemma ExponentRejected(ts: seq<TokenPair>, sink: seq<Tag>, q: nat)
    requires q + 2 < |ts| && WellQuoted(ts) && ts[q].0.Integer? && ts[q + 1].0.Exponent?
    requires !ts[q + 2].0.Integer? && !ts[q + 2].0.PlusSign? && !ts[q + 2].0.MinusSign? && !ts[q + 2].0.Error?
    ensures ValueGives(ts, sink, q, Res(sink + [Tag.Error(ErrorInfo(DigitsAfterMinus, None), ts[q + 2].1)], q + 3, Err))
  {
    assert Value(ts, sink, ts[q], q + 1) == Scalar(ts, sink, ts[q], q + 1);
    assert Fraction(ts, sink, ts[q].0.digits, q + 1) == ExponentPart(ts, sink, ts[q].0.digits, ts[q + 1], q + 2);
  }

  /** An empty stream sends nothing; a stream that starts with a lexer error
      sends that error alone. */
  lemma ParseStart(ts: seq<TokenPair>)
    requires WellQuoted(ts)
    ensures |ts| == 0 ==> Parse(ts) == []
    ensures 0 < |ts| && ts[0].0.Error? ==> Parse(ts) == [Tag.Error(ts[0].0.err, ts[0].1)]
  {
  }

  /** A top-level integer reads one more token to see whether a fraction or
      an exponent follows (parser.rs:442-446). When that token is a lexer
      error, the error is relayed and the `Number` tag is never sent. */
  lemma ErrorAfterNumber(ts: seq<TokenPair>)
    requires WellQuoted(ts) && 1 < |ts| && ts[0].0.Integer? && ts[1].0.Error?
    ensures Parse(ts) == [Tag.Error(ts[1].0.err, ts[1].1)]
  {
  }

  /** The token stream of any JSON value parses to exactly that value's
      events, whatever follows it. Only a number without an exponent reads
      one token past its end, and that token must neither continue it nor
      be a lexer error. */
  lemma ParseRoundTrip(ts: seq<TokenPair>, v: Json)
    requires WellQuoted(ts) && At(ts, 0, Toks(v)) && (Pulls(v) ==> Ends(ts, |Toks(v)|))
    ensures Parse(ts) == Events(v)
  {
    var ks := Toks(v);
    FirstToken(v);
    assert ts[0].0 == ks[0];
    ValueParsed(ts, [], 0, v);
    TopLevel(ts, Parsed(ts, [], 0, v));
    assert [] + Events(v) == Events(v);
  }

  /** `parse` hands on what the top-level value sent. */
  lemma TopLevel(ts: seq<TokenPair>, r: Res<Outcome<Attempt>>)
    requires 0 < |ts| && StartsValue(ts[0].0) && ValueGives(ts, [], 0, r)
    ensures Parse(ts) == r.tags
  {
  }
}
