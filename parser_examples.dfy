/** Concrete token streams from the parser's test suite and what the parser
    sends for them. Token positions are left free: each lemma holds for any
    `TokenInfo` attached to the tokens. */
module ParserExamples {
  import opened Tokens
  import opened ParserSpec
  import opened ParserProps

  lemma KindsAt(ts: seq<TokenPair>, ks: seq<Token>)
    requires Kinds(ts) == ks
    ensures |ts| == |ks| && forall i :: 0 <= i < |ks| ==> ts[i].0 == ks[i]
  {
    forall i | 0 <= i < |ks|
      ensures ts[i].0 == ks[i]
    {
      assert Kinds(ts)[i] == ts[i].0;
    }
  }

  /** The kinds `ks` found at `q` in `ts` are what `At` asks for. */
  lemma {:induction false} AtKinds(ts: seq<TokenPair>, q: nat, ks: seq<Token>)
    requires q + |ks| <= |ts| && Kinds(ts)[q..q + |ks|] == ks
    ensures At(ts, q, ks)
    decreases |ks|
  {
    if |ks| > 0 {
      assert Kinds(ts)[q..q + |ks|][0] == ks[0];
      assert Kinds(ts)[q + 1..q + |ks|] == ks[1..];
      AtKinds(ts, q + 1, ks[1..]);
    }
  }

  /** A stream whose kinds are `ks` holds `ks` from its start to its end. */
  lemma KindsSpan(ts: seq<TokenPair>, ks: seq<Token>)
    requires Kinds(ts) == ks
    ensures At(ts, 0, ks) && Ends(ts, |ks|)
  {
    assert Kinds(ts)[0..|ks|] == ks;
    AtKinds(ts, 0, ks);
  }

  /** A stream whose kinds are the tokens of `v` parses to the events of `v`. */
  lemma {:induction false} KindsParse(ts: seq<TokenPair>, v: Json)
    requires WellQuoted(ts) && Kinds(ts) == Toks(v)
    ensures Parse(ts) == Events(v)
  {
    KindsSpan(ts, Toks(v));
    ParseRoundTrip(ts, v);
  }

  /** `[false, {}, {}]` (tests/test_parser.rs:734-848). */
  lemma ArrayOfObjects(ts: seq<TokenPair>)
    requires WellQuoted(ts) && Kinds(ts) == [LeftBracket, Token.FalseLiteral, Comma, LeftCurly, RightCurly, Comma, LeftCurly, RightCurly, RightBracket]
    ensures Parse(ts) == [BeginArray, Tag.FalseLiteral, BeginObject, EndObject, BeginObject, EndObject, EndArray]
  {
    FalseAndTwoObjects();
    KindsParse(ts, JArray([JFalse, JObject([]), JObject([])]));
  }

  lemma FalseAndTwoObjects()
    ensures Toks(JArray([JFalse, JObject([]), JObject([])]))
         == [LeftBracket, Token.FalseLiteral, Comma, LeftCurly, RightCurly, Comma, LeftCurly, RightCurly, RightBracket]
    ensures Events(JArray([JFalse, JObject([]), JObject([])]))
         == [BeginArray, Tag.FalseLiteral, BeginObject, EndObject, BeginObject, EndObject, EndArray]
  {
    var items := [JFalse, JObject([]), JObject([])];
    TwoObjects(items[1..]);
  }

  lemma TwoObjects(items: seq<Json>)
    requires items == [JObject([]), JObject([])]
    ensures ItemsToks(items) == [LeftCurly, RightCurly, Comma, LeftCurly, RightCurly]
    ensures ItemsEvents(items) == [BeginObject, EndObject, BeginObject, EndObject]
  {
    assert ItemsToks(items[1..]) == [LeftCurly, RightCurly];
    assert ItemsEvents(items[1..]) == [BeginObject, EndObject] + ItemsEvents([]);
  }

  /** `-3.14159` (tests/test_parser.rs:135-187). */
  lemma NegativeFraction(ts: seq<TokenPair>)
    requires WellQuoted(ts) && Kinds(ts) == [MinusSign, Integer("3"), Dot, Integer("14159")]
    ensures Parse(ts) == [Number("-3.14159")]
  {
    var v := JNumber(true, "3", Some("14159"), None);
    assert Toks(v) == Kinds(ts);
    assert NumberText(true, "3", Some("14159"), None) == "-3.14159";
    KindsParse(ts, v);
  }

  /** `37728E+117` (tests/test_parser.rs:256-308). */
  lemma SignedExponent(ts: seq<TokenPair>)
    requires WellQuoted(ts) && Kinds(ts) == [Integer("37728"), Token.Exponent, PlusSign, Integer("117")]
    ensures Parse(ts) == [Number("37728E+117")]
  {
    var v := JNumber(false, "37728", None, Some(Power(Some(Plus), "117")));
    assert Toks(v) == Kinds(ts);
    assert NumberText(false, "37728", None, Some(Power(Some(Plus), "117"))) == "37728E+117";
    KindsParse(ts, v);
  }

  /** The document of the library's own example (tests/lib.rs:19-45). */
  const VersionedDocument: Json :=
    JObject([Member("version", JNumber(false, "1", Some("0"), None)),
             Member("config", JArray([JString("en"), JString("de"), JString("jp")])),
             Member("disabled", JTrue)])

  lemma LanguagesTokens()
    ensures ItemsToks([JString("en"), JString("de"), JString("jp")])
         == [Token.StringLiteral("\"en\""), Comma, Token.StringLiteral("\"de\""), Comma, Token.StringLiteral("\"jp\"")]
  {
    var items := [JString("en"), JString("de"), JString("jp")];
    assert Quoted("en") == "\"en\"" && Quoted("de") == "\"de\"" && Quoted("jp") == "\"jp\"";
    assert ItemsToks(items[2..]) == [Token.StringLiteral("\"jp\"")];
    assert ItemsToks(items[1..]) == [Token.StringLiteral("\"de\""), Comma, Token.StringLiteral("\"jp\"")];
  }

  lemma MemberTokens3()
    ensures MemberToks(VersionedDocument.members[0])
         == [Token.StringLiteral("\"version\""), Colon, Integer("1"), Dot, Integer("0")]
    ensures MemberToks(VersionedDocument.members[1])
         == [Token.StringLiteral("\"config\""), Colon, LeftBracket,
             Token.StringLiteral("\"en\""), Comma, Token.StringLiteral("\"de\""), Comma,
             Token.StringLiteral("\"jp\""), RightBracket]
    ensures MemberToks(VersionedDocument.members[2])
         == [Token.StringLiteral("\"disabled\""), Colon, Token.TrueLiteral]
  {
    assert Quoted("version") == "\"version\"" && Quoted("config") == "\"config\"" && Quoted("disabled") == "\"disabled\"";
    LanguagesTokens();
  }

  lemma VersionedTokens()
    ensures Toks(VersionedDocument)
         == [LeftCurly]
            + [Token.StringLiteral("\"version\""), Colon, Integer("1"), Dot, Integer("0")] + [Comma]
            + [Token.StringLiteral("\"config\""), Colon, LeftBracket,
               Token.StringLiteral("\"en\""), Comma, Token.StringLiteral("\"de\""), Comma,
               Token.StringLiteral("\"jp\""), RightBracket] + [Comma]
            + [Token.StringLiteral("\"disabled\""), Colon, Token.TrueLiteral]
            + [RightCurly]
  {
    var ms := VersionedDocument.members;
    MemberTokens3();
    var a, b, c := MemberToks(ms[0]), MemberToks(ms[1]), MemberToks(ms[2]);
    assert MembersToks(ms[2..]) == c;
    assert MembersToks(ms[1..]) == b + [Comma] + c;
    assert MembersToks(ms) == a + [Comma] + (b + [Comma] + c);
    assert [LeftCurly] + (a + [Comma] + (b + [Comma] + c)) + [RightCurly]
        == [LeftCurly] + a + [Comma] + b + [Comma] + c + [RightCurly];
  }

  lemma MemberEvents3()
    ensures MemberEvents(VersionedDocument.members[0]) == [ObjectKey("version"), Number("1.0")]
    ensures MemberEvents(VersionedDocument.members[1])
         == [ObjectKey("config"), BeginArray, Tag.StringLiteral("en"), Tag.StringLiteral("de"), Tag.StringLiteral("jp"), EndArray]
    ensures MemberEvents(VersionedDocument.members[2]) == [ObjectKey("disabled"), Tag.TrueLiteral]
  {
    var items := VersionedDocument.members[1].value.items;
    assert ItemsEvents(items[2..]) == [Tag.StringLiteral("jp")] + ItemsEvents([]);
    assert ItemsEvents(items[1..]) == [Tag.StringLiteral("de")] + ItemsEvents(items[2..]);
    assert NumberText(false, "1", Some("0"), None) == "1.0";
  }

  lemma VersionedEvents()
    ensures Events(VersionedDocument)
         == [BeginObject]
            + [ObjectKey("version"), Number("1.0")]
            + [ObjectKey("config"), BeginArray, Tag.StringLiteral("en"), Tag.StringLiteral("de"), Tag.StringLiteral("jp"), EndArray]
            + [ObjectKey("disabled"), Tag.TrueLiteral]
            + [EndObject]
  {
    var ms := VersionedDocument.members;
    MemberEvents3();
    var a, b, c := MemberEvents(ms[0]), MemberEvents(ms[1]), MemberEvents(ms[2]);
    assert MembersEvents(ms[2..]) == c + MembersEvents([]);
    assert MembersEvents(ms[1..]) == b + MembersEvents(ms[2..]);
    assert MembersEvents(ms) == a + (b + (c + []));
    assert [BeginObject] + (a + (b + (c + []))) + [EndObject] == [BeginObject] + a + b + c + [EndObject];
  }

  lemma VersionedTags()
    ensures [BeginObject]
            + [ObjectKey("version"), Number("1.0")]
            + [ObjectKey("config"), BeginArray, Tag.StringLiteral("en"), Tag.StringLiteral("de"), Tag.StringLiteral("jp"), EndArray]
            + [ObjectKey("disabled"), Tag.TrueLiteral]
            + [EndObject]
         == [BeginObject, ObjectKey("version"), Number("1.0"), ObjectKey("config"), BeginArray,
             Tag.StringLiteral("en"), Tag.StringLiteral("de"), Tag.StringLiteral("jp"), EndArray,
             ObjectKey("disabled"), Tag.TrueLiteral, EndObject]
  {
  }

  /** The library's example document, as the lexer tokenises it, parses to
      the twelve tags its test expects (tests/lib.rs:19-45). */
  lemma VersionedConfig(ts: seq<TokenPair>)
    requires WellQuoted(ts) && Kinds(ts)
          == [LeftCurly]
           + [Token.StringLiteral("\"version\""), Colon, Integer("1"), Dot, Integer("0")] + [Comma]
           + [Token.StringLiteral("\"config\""), Colon, LeftBracket,
              Token.StringLiteral("\"en\""), Comma, Token.StringLiteral("\"de\""), Comma,
              Token.StringLiteral("\"jp\""), RightBracket] + [Comma]
           + [Token.StringLiteral("\"disabled\""), Colon, Token.TrueLiteral]
           + [RightCurly]
    ensures Parse(ts) == [BeginObject, ObjectKey("version"), Number("1.0"), ObjectKey("config"), BeginArray,
                          Tag.StringLiteral("en"), Tag.StringLiteral("de"), Tag.StringLiteral("jp"), EndArray,
                          ObjectKey("disabled"), Tag.TrueLiteral, EndObject]
  {
    VersionedTokens();
    VersionedEvents();
    KindsParse(ts, VersionedDocument);
    VersionedTags();
  }

  /** `{ true }`: a pair or `}` was expected (tests/test_parser.rs:400-446). */
  lemma ObjectWithoutKey(ts: seq<TokenPair>)
    requires WellQuoted(ts) && Kinds(ts) == [LeftCurly, Token.TrueLiteral, RightCurly]
    ensures Parse(ts) == [BeginObject, Tag.Error(ErrorInfo(PairOrCurlyExpected, None), ts[1].1)]
  {
    KindsAt(ts, [LeftCurly, Token.TrueLiteral, RightCurly]);
    var r := Res([BeginObject, Tag.Error(ErrorInfo(PairOrCurlyExpected, None), ts[1].1)], 2, Err);
    PairOrCurlyRejected(ts, [BeginObject], ts[0].1, 1);
    assert [] + [BeginObject] == [BeginObject];
    ObjectAborts(ts, [], 0, r);
    TopLevel(ts, Res(r.tags, r.pos, Err));
  }

  /** `{ "blab" }`: the key is reported, then the missing colon
      (tests/test_parser.rs:448-495). */
  lemma ObjectWithoutColon(ts: seq<TokenPair>)
    requires WellQuoted(ts) && Kinds(ts) == [LeftCurly, Token.StringLiteral("\"blab\""), RightCurly]
    ensures Parse(ts) == [BeginObject, ObjectKey("blab"), Tag.Error(ErrorInfo(ColonExpected("blab"), None), ts[2].1)]
  {
    KindsAt(ts, [LeftCurly, Token.StringLiteral("\"blab\""), RightCurly]);
    assert Quoted("blab") == "\"blab\"";
    var r := Res([BeginObject, ObjectKey("blab"), Tag.Error(ErrorInfo(ColonExpected("blab"), None), ts[2].1)], 3, Err);
    ColonMissing(ts, [BeginObject], ts[0].1, 1, "blab", false, false);
    assert [] + [BeginObject] == [BeginObject];
    ObjectAborts(ts, [], 0, r);
    TopLevel(ts, Res(r.tags, r.pos, Err));
  }

  /** `{ "blab": }`: the missing value is reported at the colon
      (tests/test_parser.rs:497-556). */
  lemma ObjectWithoutValue(ts: seq<TokenPair>)
    requires WellQuoted(ts) && Kinds(ts) == [LeftCurly, Token.StringLiteral("\"blab\""), Colon, RightCurly]
    ensures Parse(ts) == [BeginObject, ObjectKey("blab"), Tag.Error(ErrorInfo(ValueRequired("blab"), None), ts[2].1)]
  {
    KindsAt(ts, [LeftCurly, Token.StringLiteral("\"blab\""), Colon, RightCurly]);
    assert Quoted("blab") == "\"blab\"";
    var keyed := [BeginObject, ObjectKey("blab")];
    var r := Res(keyed + [Tag.Error(ErrorInfo(ValueRequired("blab"), None), ts[2].1)], 4, Err);
    assert [BeginObject] + [ObjectKey("blab")] == keyed;
    NoValue(ts, keyed, 3);
    ValueMissing(ts, [BeginObject], ts[0].1, 1, "blab", false, false, Res(keyed, 4, Err));
    assert [] + [BeginObject] == [BeginObject];
    ObjectAborts(ts, [], 0, r);
    TopLevel(ts, Res(r.tags, r.pos, Err));
  }

  /** `{ "blab": null,, }`: the second comma is the error
      (tests/test_parser.rs:558-650). */
  lemma ObjectDoubleComma(ts: seq<TokenPair>)
    requires WellQuoted(ts) && Kinds(ts) == [LeftCurly, Token.StringLiteral("\"blab\""), Colon, Token.NullLiteral, Comma, Comma, RightCurly]
    ensures Parse(ts) == [BeginObject, ObjectKey("blab"), Tag.NullLiteral,
                          Tag.Error(ErrorInfo(UnexpectedCommaInObject, None), ts[5].1)]
  {
    KindsAt(ts, [LeftCurly, Token.StringLiteral("\"blab\""), Colon, Token.NullLiteral, Comma, Comma, RightCurly]);
    assert Quoted("blab") == "\"blab\"";
    var info := ts[0].1;
    var keyed := [BeginObject, ObjectKey("blab")];
    var pair := keyed + [Tag.NullLiteral];
    var r := Res(pair + [Tag.Error(ErrorInfo(UnexpectedCommaInObject, None), ts[5].1)], 6, Err);
    assert [BeginObject] + [ObjectKey("blab")] == keyed;
    ObjectCommaRejected(ts, pair, info, 5, true);
    CommaInObject(ts, pair, info, 4, r);
    ValueParsed(ts, keyed, 3, JNull);
    PairEnds(ts, [BeginObject], info, 1, "blab", false, false, pair, 4, Parsed(ts, keyed, 3, JNull), r);
    assert [] + [BeginObject] == [BeginObject];
    ObjectAborts(ts, [], 0, r);
    TopLevel(ts, Res(r.tags, r.pos, Err));
  }

  /** `[ , ]` (tests/test_parser.rs:686-732). */
  lemma ArrayStrayComma(ts: seq<TokenPair>)
    requires WellQuoted(ts) && Kinds(ts) == [LeftBracket, Comma, RightBracket]
    ensures Parse(ts) == [BeginArray, Tag.Error(ErrorInfo(UnexpectedCommaInArray, None), ts[1].1)]
  {
    KindsAt(ts, [LeftBracket, Comma, RightBracket]);
    var r := Res([BeginArray, Tag.Error(ErrorInfo(UnexpectedCommaInArray, None), ts[1].1)], 2, Err);
    ArrayCommaRejected(ts, [BeginArray], ts[0].1, 1, false);
    ArrayAborts(ts, [], 0, r);
    TopLevel(ts, Res(r.tags, r.pos, Err));
  }

  /** Two pairs with no comma between them are accepted: after a pair the
      object loop takes a key as readily as a comma. */
  lemma PairsWithoutComma(ts: seq<TokenPair>)
    requires WellQuoted(ts) && Kinds(ts) == [LeftCurly, Token.StringLiteral("\"a\""), Colon, Token.TrueLiteral,
                           Token.StringLiteral("\"b\""), Colon, Token.FalseLiteral, RightCurly]
    ensures Parse(ts) == [BeginObject, ObjectKey("a"), Tag.TrueLiteral, ObjectKey("b"), Tag.FalseLiteral, EndObject]
  {
    KindsAt(ts, [LeftCurly, Token.StringLiteral("\"a\""), Colon, Token.TrueLiteral,
                           Token.StringLiteral("\"b\""), Colon, Token.FalseLiteral, RightCurly]);
    var tags := [BeginObject, ObjectKey("a"), Tag.TrueLiteral] + [ObjectKey("b"), Tag.FalseLiteral] + [EndObject];
    TwoPairs(ts);
    assert [] + [BeginObject] == [BeginObject];
    OpenObject(ts, [], 0, tags, 8);
    TopLevel(ts, Res(tags, 8, Ok(Attempt(true, None))));
  }

  /** The object loop of `PairsWithoutComma`, from the first key on. */
  lemma TwoPairs(ts: seq<TokenPair>)
    requires WellQuoted(ts) && |ts| == 8 && ts[1].0 == Token.StringLiteral("\"a\"") && ts[2].0.Colon? && ts[3].0 == Token.TrueLiteral
    requires ts[4].0 == Token.StringLiteral("\"b\"") && ts[5].0.Colon? && ts[6].0 == Token.FalseLiteral && ts[7].0.RightCurly?
    ensures PairsGive(ts, [BeginObject], ts[0].1, 1, false, false,
                      Res([BeginObject, ObjectKey("a"), Tag.TrueLiteral] + [ObjectKey("b"), Tag.FalseLiteral] + [EndObject], 8, Ok(true)))
  {
    var info := ts[0].1;
    var first := [BeginObject, ObjectKey("a"), Tag.TrueLiteral];
    var both := first + [ObjectKey("b"), Tag.FalseLiteral];
    var r := Res(both + [EndObject], 8, Ok(true));
    assert Quoted("a") == "\"a\"" && Quoted("b") == "\"b\"";
    CloseObject(ts, both, info, 7, true);
    ValueParsed(ts, first + [ObjectKey("b")], 6, JFalse);
    PairEnds(ts, first, info, 4, "b", true, false, both, 7, Parsed(ts, first + [ObjectKey("b")], 6, JFalse), r);
    ValueParsed(ts, [BeginObject, ObjectKey("a")], 3, JTrue);
    PairEnds(ts, [BeginObject], info, 1, "a", false, false, first, 4, Parsed(ts, [BeginObject, ObjectKey("a")], 3, JTrue), r);
  }

  /** `[[}`: the inner array reports the bad token, and the outer array
      reports it once more at the token that should have started its item. */
  lemma NestedFailure(ts: seq<TokenPair>)
    requires WellQuoted(ts) && Kinds(ts) == [LeftBracket, LeftBracket, RightCurly]
    ensures Parse(ts) == [BeginArray, BeginArray,
                          Tag.Error(ErrorInfo(ValueOrBracketExpected, None), ts[2].1),
                          Tag.Error(ErrorInfo(ValueOrBracketExpected, None), ts[1].1)]
  {
    KindsAt(ts, [LeftBracket, LeftBracket, RightCurly]);
    var inner := [BeginArray, BeginArray, Tag.Error(ErrorInfo(ValueOrBracketExpected, None), ts[2].1)];
    var outer := inner + [Tag.Error(ErrorInfo(ValueOrBracketExpected, None), ts[1].1)];
    assert [] + [BeginArray] == [BeginArray] && [BeginArray] + [BeginArray] == [BeginArray, BeginArray];
    assert [BeginArray, BeginArray] + [inner[2]] == inner;
    NoValue(ts, [BeginArray, BeginArray], 2);
    ItemRejected(ts, [BeginArray, BeginArray], ts[1].1, 2, false, Res([BeginArray, BeginArray], 3, Err));
    ArrayAborts(ts, [BeginArray], 1, Res(inner, 3, Err));
    ItemRejected(ts, [BeginArray], ts[0].1, 1, false, Res(inner, 3, Err));
    ArrayAborts(ts, [], 0, Res(outer, 3, Err));
    TopLevel(ts, Res(outer, 3, Err));
  }

  /** A stream that starts with a token no value starts with (a closer, a
      separator, `+`, `.` or an exponent) sends nothing at all. */
  lemma StrayCloser(ts: seq<TokenPair>)
    requires 0 < |ts| && WellQuoted(ts) && !StartsValue(ts[0].0) && !ts[0].0.Error?
    ensures Parse(ts) == []
  {
  }
}
