/** Concrete runs of the JSON lexer, parser and decoder: the effect of the
    skip quirk across fragment boundaries, traced one scan call at a time. */
module JsonTraces {
  import opened Base
  import opened Streams
  import opened JsonLexer
  import opened JsonParser
  import opened JsonDecode

  // The fragments "[1,", "2,3" and "]".
  const B1: seq<Unit> := [LBRACKET, 49, COMMA]
  const B2: seq<Unit> := [50, COMMA, 51]
  const B3: seq<Unit> := [RBRACKET]

  /** The tokens of the fragments "[1,", "2,3" and "]": the "3" is the last
      character of its fragment, so skip puts start past it, and the number
      closed in the next fragment has empty text. */
  const TRACE_TOKENS: seq<Token> :=
    [Punct(LBRACKET), NumberToken([49]), Punct(COMMA), NumberToken([50]), Punct(COMMA), NumberToken([]), Punct(RBRACKET)]

  /** The first fragment: "[", "1" and "," are forwarded; the comma, read at
      the end of the buffer, leaves start at the end. */
  lemma FirstFragment()
    ensures Valid(Splice(INITIAL, B1))
    ensures Drain(Splice(INITIAL, B1)) ==
      Drained([Emitted(Punct(LBRACKET), Lex(B1, 0, 1, [], Init, false)),
               Emitted(NumberToken([49]), Lex(B1, 1, 2, [], Init, false)),
               Emitted(Punct(COMMA), Lex(B1, 3, 3, [], Init, false))],
              Lex(B1, 3, 3, [], Init, false), Broke(EmptyLexeme))
  {
    var s0 := Lex(B1, 0, 0, [], Init, false);
    var s1 := Lex(B1, 0, 1, [], Init, false);
    var s2 := Lex(B1, 1, 2, [], Num1, false);
    var s3 := Lex(B1, 1, 2, [], Init, false);
    var s4 := Lex(B1, 3, 3, [], Init, false);
    assert Splice(INITIAL, B1) == s0;
    assert Step(s0) == Next(s1, Emit(Punct(LBRACKET))) by {
      assert SkipWhiteSpace(s0) == (s1, Ch(LBRACKET));
    }
    assert Step(s1) == Next(s2, Again) by {
      assert SkipWhiteSpace(s1) == (s1.(current := 2), Ch(49));
    }
    assert Step(s2) == Next(s3, Emit(NumberToken([49]))) by {
      assert AcceptWhile(s2, IsDigit) == Some((s2.(current := 3), Ch(COMMA)));
      assert JsSlice(B1, 1, 2) == [49];
    }
    assert Step(s3) == Next(s4, Emit(Punct(COMMA))) by {
      assert SkipWhiteSpace(s3) == (s3.(current := 3), Ch(COMMA));
    }
    assert Step(s4) == Next(s4, EmptyLexeme) by {
      assert SkipWhiteSpace(s4) == (s4, Empty);
    }
    DrainBreak(s4, s4, EmptyLexeme);
    DrainEmit(s3, s4, Punct(COMMA));
    DrainAgain(s1, s2);
    DrainEmit(s2, s3, NumberToken([49]));
    DrainEmit(s0, s1, Punct(LBRACKET));
  }

  /** The second fragment: "2" and "," are forwarded; the "3" at the end of
      the buffer moves start past itself, and the number stops for more input. */
  lemma SecondFragment()
    ensures Valid(Splice(Lex(B1, 3, 3, [], Init, false), B2))
    ensures Drain(Splice(Lex(B1, 3, 3, [], Init, false), B2)) ==
      Drained([Emitted(NumberToken([50]), Lex(B2, 0, 1, [], Init, false)),
               Emitted(Punct(COMMA), Lex(B2, 1, 2, [], Init, false))],
              Lex(B2, 3, 3, [], Num1, false), Broke(EmptyLexeme))
  {
    var t0 := Lex(B2, 0, 0, [], Init, false);
    var t1 := Lex(B2, 0, 1, [], Num1, false);
    var t2 := Lex(B2, 0, 1, [], Init, false);
    var t3 := Lex(B2, 1, 2, [], Init, false);
    var t4 := Lex(B2, 3, 3, [], Num1, false);
    assert Splice(Lex(B1, 3, 3, [], Init, false), B2) == t0;
    assert Step(t0) == Next(t1, Again) by {
      assert SkipWhiteSpace(t0) == (t0.(current := 1), Ch(50));
    }
    assert Step(t1) == Next(t2, Emit(NumberToken([50]))) by {
      assert AcceptWhile(t1, IsDigit) == Some((t1.(current := 2), Ch(COMMA)));
      assert JsSlice(B2, 0, 1) == [50];
    }
    assert Step(t2) == Next(t3, Emit(Punct(COMMA))) by {
      assert SkipWhiteSpace(t2) == (t2.(current := 2), Ch(COMMA));
    }
    assert Step(t3) == Next(t4, Again) by {
      assert SkipWhiteSpace(t3) == (t3.(current := 3), Ch(51));
    }
    assert Step(t4) == Next(t4, EmptyLexeme) by {
      assert AcceptWhile(t4, IsDigit) == Some((t4, Empty));
    }
    DrainBreak(t4, t4, EmptyLexeme);
    DrainAgain(t3, t4);
    DrainEmit(t2, t3, Punct(COMMA));
    DrainEmit(t1, t2, NumberToken([50]));
    DrainAgain(t0, t1);
  }

  /** The third fragment: the pending number is closed by "]" and sliced from
      start, which is where it ends, so its text is empty. */
  lemma ThirdFragment()
    ensures Valid(Splice(Lex(B2, 3, 3, [], Num1, false), B3))
    ensures Drain(Splice(Lex(B2, 3, 3, [], Num1, false), B3)) ==
      Drained([Emitted(NumberToken([]), Lex(B3, 0, 0, [], Init, false)),
               Emitted(Punct(RBRACKET), Lex(B3, 1, 1, [], Init, false))],
              Lex(B3, 1, 1, [], Init, false), Broke(EmptyLexeme))
  {
    var u0 := Lex(B3, 0, 0, [], Num1, false);
    var u1 := Lex(B3, 0, 0, [], Init, false);
    var u2 := Lex(B3, 1, 1, [], Init, false);
    assert Splice(Lex(B2, 3, 3, [], Num1, false), B3) == u0;
    assert Step(u0) == Next(u1, Emit(NumberToken([]))) by {
      assert AcceptWhile(u0, IsDigit) == Some((u0.(current := 1), Ch(RBRACKET)));
      assert JsSlice(B3, 0, 0) == [];
    }
    assert Step(u1) == Next(u2, Emit(Punct(RBRACKET))) by {
      assert SkipWhiteSpace(u1) == (u1.(current := 1), Ch(RBRACKET));
    }
    assert Step(u2) == Next(u2, EmptyLexeme) by {
      assert SkipWhiteSpace(u2) == (u2, Empty);
    }
    DrainBreak(u2, u2, EmptyLexeme);
    DrainEmit(u1, u2, Punct(RBRACKET));
    DrainEmit(u0, u1, NumberToken([]));
  }

  /** Lexing "[1,", "2,3", "]" pulls all three fragments and forwards the
      tokens of [1,2,] with an empty number in place of the 3. */
  lemma {:induction false} SplitTrace(frags: seq<seq<Unit>>)
    requires frags == [B1, B2, B3]
    ensures LexAll(INITIAL, frags) == Run(TRACE_TOKENS, Lex(B3, 1, 1, [], Init, false), false, 3)
  {
    FirstFragment();
    var r2 := LexAll(Lex(B1, 3, 3, [], Init, false), frags[1..]);
    LaterFragments(frags[1..]);
    assert TokensOf(Drain(Splice(INITIAL, B1)).emitted) == [Punct(LBRACKET), NumberToken([49]), Punct(COMMA)];
    assert LexAll(INITIAL, frags) == Run([Punct(LBRACKET), NumberToken([49]), Punct(COMMA)] + r2.tokens, r2.last, false, 3);
  }

  /** After the first fragment, "2,3" and "]" forward 2, ",", the empty
      number and "]". */
  lemma {:induction false} LaterFragments(frags: seq<seq<Unit>>)
    requires frags == [B2, B3]
    ensures LexAll(Lex(B1, 3, 3, [], Init, false), frags) ==
      Run([NumberToken([50]), Punct(COMMA), NumberToken([]), Punct(RBRACKET)], Lex(B3, 1, 1, [], Init, false), false, 2)
  {
    SecondFragment();
    ThirdFragment();
    var r3 := LexAll(Lex(B2, 3, 3, [], Num1, false), frags[1..]);
    assert frags[1..][1..] == [];
    assert LexAll(Lex(B3, 1, 1, [], Init, false), []) == Run([], Lex(B3, 1, 1, [], Init, false), false, 0);
    assert [NumberToken([]), Punct(RBRACKET)] + [] == [NumberToken([]), Punct(RBRACKET)];
    assert TokensOf(Drain(Splice(Lex(B2, 3, 3, [], Num1, false), B3)).emitted) == [NumberToken([]), Punct(RBRACKET)];
    assert r3 == Run([NumberToken([]), Punct(RBRACKET)], Lex(B3, 1, 1, [], Init, false), false, 1);
    assert TokensOf(Drain(Splice(Lex(B1, 3, 3, [], Init, false), B2)).emitted) == [NumberToken([50]), Punct(COMMA)];
    assert LexAll(Lex(B1, 3, 3, [], Init, false), frags) == Run([NumberToken([50]), Punct(COMMA)] + r3.tokens, r3.last, false, 2);
  }

  /** Decoding those fragments hands on one value, the array of the numbers
      1, 2 and the empty number text. */
  lemma SplitDecodes(f: Consumer<JsonValue>)
    ensures DecodeAll(INITIAL, START, [B1, B2, B3], f).values ==
      Cut([JArray([JNumber([49]), JNumber([50]), JNumber([])])], f)
  {
    SplitParses([B1, B2, B3]);
    FromJsonValues([B1, B2, B3], f);
  }

  /** The parser turns the tokens of the fragments into that one array. */
  lemma SplitParses(frags: seq<seq<Unit>>)
    requires frags == [B1, B2, B3]
    ensures ParseTokens(START, LexAll(INITIAL, frags).tokens).values ==
      [JArray([JNumber([49]), JNumber([50]), JNumber([])])]
  {
    SplitTrace(frags);
    TraceParses(TRACE_TOKENS);
  }

  /** The tokens of the fragments form the document [1, 2, ""-number]. */
  lemma TraceParses(toks: seq<Token>)
    requires toks == TRACE_TOKENS
    ensures ParseTokens(START, toks).values == [JArray([JNumber([49]), JNumber([50]), JNumber([])])]
  {
    var d := DArray([DNumber([49]), DNumber([50]), DNumber([])]);
    assert Tokens(d) == toks;
    TopLevel(d);
    assert Value(d) == JArray([JNumber([49]), JNumber([50]), JNumber([])]);
  }

  // The example in the comment above fromJson (doc/zen.js:937-948), as one fragment.
  const D: seq<Unit> := [49, 32, 34, 97, 98, 99, 34, 32, 91, 49, 93, 32, 123, 34, 97, 34, 58, 116, 114, 117, 101, 125, 32]

  /** The tokens of `1 "abc" [1] {"a":true} `. */
  const DOC_TOKENS: seq<Token> :=
    [NumberToken([49]), StringToken([97, 98, 99]), Punct(91), NumberToken([49]), Punct(93), Punct(123), StringToken([97]), Punct(58), IdToken([116, 114, 117, 101]), Punct(125)]

  // The example, one scan call at a time, then from each call to the end:
  // DocSegment n is what the lexer forwards from the state before call n.

  lemma DocStep1(d: seq<Unit>)
    requires d == D && Valid(Lex(d, 0, 0, [], Init, false))
    ensures Valid(Lex(d, 0, 1, [], Num1, false)) && Drain(Lex(d, 0, 0, [], Init, false)) == Drain(Lex(d, 0, 1, [], Num1, false))
  {
    assert Step(Lex(d, 0, 0, [], Init, false)) == Next(Lex(d, 0, 1, [], Num1, false), Again) by {
      assert SkipWhiteSpace(Lex(d, 0, 0, [], Init, false)) == (Lex(d, 0, 1, [], Init, false), Ch(49));
    }
    DrainAgain(Lex(d, 0, 0, [], Init, false), Lex(d, 0, 1, [], Num1, false));
  }

  lemma DocStep2(d: seq<Unit>)
    requires d == D && Valid(Lex(d, 0, 1, [], Num1, false))
    ensures Valid(Lex(d, 0, 1, [], Init, false)) && Drain(Lex(d, 0, 1, [], Num1, false)).last == Drain(Lex(d, 0, 1, [], Init, false)).last && Drain(Lex(d, 0, 1, [], Num1, false)).ending == Drain(Lex(d, 0, 1, [], Init, false)).ending
    ensures TokensOf(Drain(Lex(d, 0, 1, [], Num1, false)).emitted) == [NumberToken([49])] + TokensOf(Drain(Lex(d, 0, 1, [], Init, false)).emitted)
  {
    assert Step(Lex(d, 0, 1, [], Num1, false)) == Next(Lex(d, 0, 1, [], Init, false), Emit(NumberToken([49]))) by {
      assert AcceptWhile(Lex(d, 0, 1, [], Num1, false), IsDigit) == Some((Lex(d, 0, 2, [], Num1, false), Ch(32)));
      assert JsSlice(d, 0, 1) == [49];
    }
    DrainToken(Lex(d, 0, 1, [], Num1, false), Lex(d, 0, 1, [], Init, false), NumberToken([49]));
  }

  lemma DocStep3(d: seq<Unit>)
    requires d == D && Valid(Lex(d, 0, 1, [], Init, false))
    ensures Valid(Lex(d, 3, 3, [], Str1, false)) && Drain(Lex(d, 0, 1, [], Init, false)) == Drain(Lex(d, 3, 3, [], Str1, false))
  {
    assert Step(Lex(d, 0, 1, [], Init, false)) == Next(Lex(d, 3, 3, [], Str1, false), Again) by {
      assert SkipWhiteSpace(Lex(d, 0, 1, [], Init, false)) == SkipWhiteSpace(Lex(d, 0, 2, [], Init, false));
      assert SkipWhiteSpace(Lex(d, 0, 2, [], Init, false)) == (Lex(d, 0, 3, [], Init, false), Ch(34));
    }
    DrainAgain(Lex(d, 0, 1, [], Init, false), Lex(d, 3, 3, [], Str1, false));
  }

  lemma DocScan4(d: seq<Unit>)
    requires d == D && Valid(Lex(d, 3, 3, [], Str1, false))
    ensures Step(Lex(d, 3, 3, [], Str1, false)) == Next(Lex(d, 3, 7, [], Init, false), Emit(StringToken([97, 98, 99])))
  {
    assert AcceptWhile(Lex(d, 3, 3, [], Str1, false), IsJsonStringChar) == AcceptWhile(Lex(d, 3, 4, [], Str1, false), IsJsonStringChar);
    assert AcceptWhile(Lex(d, 3, 4, [], Str1, false), IsJsonStringChar) == AcceptWhile(Lex(d, 3, 5, [], Str1, false), IsJsonStringChar);
    assert AcceptWhile(Lex(d, 3, 5, [], Str1, false), IsJsonStringChar) == AcceptWhile(Lex(d, 3, 6, [], Str1, false), IsJsonStringChar);
    assert AcceptWhile(Lex(d, 3, 6, [], Str1, false), IsJsonStringChar) == Some((Lex(d, 3, 7, [], Str1, false), Ch(34)));
    assert JsSlice(d, 3, 6) == [97, 98, 99];
    assert [] + [97, 98, 99] == [97, 98, 99];
  }

  lemma DocStep4(d: seq<Unit>)
    requires d == D && Valid(Lex(d, 3, 3, [], Str1, false))
    ensures Valid(Lex(d, 3, 7, [], Init, false)) && Drain(Lex(d, 3, 3, [], Str1, false)).last == Drain(Lex(d, 3, 7, [], Init, false)).last && Drain(Lex(d, 3, 3, [], Str1, false)).ending == Drain(Lex(d, 3, 7, [], Init, false)).ending
    ensures TokensOf(Drain(Lex(d, 3, 3, [], Str1, false)).emitted) == [StringToken([97, 98, 99])] + TokensOf(Drain(Lex(d, 3, 7, [], Init, false)).emitted)
  {
    DocScan4(d);
    DrainToken(Lex(d, 3, 3, [], Str1, false), Lex(d, 3, 7, [], Init, false), StringToken([97, 98, 99]));
  }

  lemma DocStep5(d: seq<Unit>)
    requires d == D && Valid(Lex(d, 3, 7, [], Init, false))
    ensures Valid(Lex(d, 8, 9, [], Init, false)) && Drain(Lex(d, 3, 7, [], Init, false)).last == Drain(Lex(d, 8, 9, [], Init, false)).last && Drain(Lex(d, 3, 7, [], Init, false)).ending == Drain(Lex(d, 8, 9, [], Init, false)).ending
    ensures TokensOf(Drain(Lex(d, 3, 7, [], Init, false)).emitted) == [Punct(91)] + TokensOf(Drain(Lex(d, 8, 9, [], Init, false)).emitted)
  {
    assert Step(Lex(d, 3, 7, [], Init, false)) == Next(Lex(d, 8, 9, [], Init, false), Emit(Punct(91))) by {
      assert SkipWhiteSpace(Lex(d, 3, 7, [], Init, false)) == SkipWhiteSpace(Lex(d, 3, 8, [], Init, false));
      assert SkipWhiteSpace(Lex(d, 3, 8, [], Init, false)) == (Lex(d, 3, 9, [], Init, false), Ch(91));
    }
    DrainToken(Lex(d, 3, 7, [], Init, false), Lex(d, 8, 9, [], Init, false), Punct(91));
  }

  lemma DocStep6(d: seq<Unit>)
    requires d == D && Valid(Lex(d, 8, 9, [], Init, false))
    ensures Valid(Lex(d, 9, 10, [], Num1, false)) && Drain(Lex(d, 8, 9, [], Init, false)) == Drain(Lex(d, 9, 10, [], Num1, false))
  {
    assert Step(Lex(d, 8, 9, [], Init, false)) == Next(Lex(d, 9, 10, [], Num1, false), Again) by {
      assert SkipWhiteSpace(Lex(d, 8, 9, [], Init, false)) == (Lex(d, 8, 10, [], Init, false), Ch(49));
    }
    DrainAgain(Lex(d, 8, 9, [], Init, false), Lex(d, 9, 10, [], Num1, false));
  }

  lemma DocStep7(d: seq<Unit>)
    requires d == D && Valid(Lex(d, 9, 10, [], Num1, false))
    ensures Valid(Lex(d, 9, 10, [], Init, false)) && Drain(Lex(d, 9, 10, [], Num1, false)).last == Drain(Lex(d, 9, 10, [], Init, false)).last && Drain(Lex(d, 9, 10, [], Num1, false)).ending == Drain(Lex(d, 9, 10, [], Init, false)).ending
    ensures TokensOf(Drain(Lex(d, 9, 10, [], Num1, false)).emitted) == [NumberToken([49])] + TokensOf(Drain(Lex(d, 9, 10, [], Init, false)).emitted)
  {
    assert Step(Lex(d, 9, 10, [], Num1, false)) == Next(Lex(d, 9, 10, [], Init, false), Emit(NumberToken([49]))) by {
      assert AcceptWhile(Lex(d, 9, 10, [], Num1, false), IsDigit) == Some((Lex(d, 9, 11, [], Num1, false), Ch(93)));
      assert JsSlice(d, 9, 10) == [49];
    }
    DrainToken(Lex(d, 9, 10, [], Num1, false), Lex(d, 9, 10, [], Init, false), NumberToken([49]));
  }

  lemma DocStep8(d: seq<Unit>)
    requires d == D && Valid(Lex(d, 9, 10, [], Init, false))
    ensures Valid(Lex(d, 10, 11, [], Init, false)) && Drain(Lex(d, 9, 10, [], Init, false)).last == Drain(Lex(d, 10, 11, [], Init, false)).last && Drain(Lex(d, 9, 10, [], Init, false)).ending == Drain(Lex(d, 10, 11, [], Init, false)).ending
    ensures TokensOf(Drain(Lex(d, 9, 10, [], Init, false)).emitted) == [Punct(93)] + TokensOf(Drain(Lex(d, 10, 11, [], Init, false)).emitted)
  {
    assert Step(Lex(d, 9, 10, [], Init, false)) == Next(Lex(d, 10, 11, [], Init, false), Emit(Punct(93))) by {
      assert SkipWhiteSpace(Lex(d, 9, 10, [], Init, false)) == (Lex(d, 9, 11, [], Init, false), Ch(93));
    }
    DrainToken(Lex(d, 9, 10, [], Init, false), Lex(d, 10, 11, [], Init, false), Punct(93));
  }

  lemma DocStep9(d: seq<Unit>)
    requires d == D && Valid(Lex(d, 10, 11, [], Init, false))
    ensures Valid(Lex(d, 12, 13, [], Init, false)) && Drain(Lex(d, 10, 11, [], Init, false)).last == Drain(Lex(d, 12, 13, [], Init, false)).last && Drain(Lex(d, 10, 11, [], Init, false)).ending == Drain(Lex(d, 12, 13, [], Init, false)).ending
    ensures TokensOf(Drain(Lex(d, 10, 11, [], Init, false)).emitted) == [Punct(123)] + TokensOf(Drain(Lex(d, 12, 13, [], Init, false)).emitted)
  {
    assert Step(Lex(d, 10, 11, [], Init, false)) == Next(Lex(d, 12, 13, [], Init, false), Emit(Punct(123))) by {
      assert SkipWhiteSpace(Lex(d, 10, 11, [], Init, false)) == SkipWhiteSpace(Lex(d, 10, 12, [], Init, false));
      assert SkipWhiteSpace(Lex(d, 10, 12, [], Init, false)) == (Lex(d, 10, 13, [], Init, false), Ch(123));
    }
    DrainToken(Lex(d, 10, 11, [], Init, false), Lex(d, 12, 13, [], Init, false), Punct(123));
  }

  lemma DocStep10(d: seq<Unit>)
    requires d == D && Valid(Lex(d, 12, 13, [], Init, false))
    ensures Valid(Lex(d, 14, 14, [], Str1, false)) && Drain(Lex(d, 12, 13, [], Init, false)) == Drain(Lex(d, 14, 14, [], Str1, false))
  {
    assert Step(Lex(d, 12, 13, [], Init, false)) == Next(Lex(d, 14, 14, [], Str1, false), Again) by {
      assert SkipWhiteSpace(Lex(d, 12, 13, [], Init, false)) == (Lex(d, 12, 14, [], Init, false), Ch(34));
    }
    DrainAgain(Lex(d, 12, 13, [], Init, false), Lex(d, 14, 14, [], Str1, false));
  }

  lemma DocScan11(d: seq<Unit>)
    requires d == D && Valid(Lex(d, 14, 14, [], Str1, false))
    ensures Step(Lex(d, 14, 14, [], Str1, false)) == Next(Lex(d, 14, 16, [], Init, false), Emit(StringToken([97])))
  {
    assert AcceptWhile(Lex(d, 14, 14, [], Str1, false), IsJsonStringChar) == AcceptWhile(Lex(d, 14, 15, [], Str1, false), IsJsonStringChar);
    assert AcceptWhile(Lex(d, 14, 15, [], Str1, false), IsJsonStringChar) == Some((Lex(d, 14, 16, [], Str1, false), Ch(34)));
    assert JsSlice(d, 14, 15) == [97];
    assert [] + [97] == [97];
  }

  lemma DocStep11(d: seq<Unit>)
    requires d == D && Valid(Lex(d, 14, 14, [], Str1, false))
    ensures Valid(Lex(d, 14, 16, [], Init, false)) && Drain(Lex(d, 14, 14, [], Str1, false)).last == Drain(Lex(d, 14, 16, [], Init, false)).last && Drain(Lex(d, 14, 14, [], Str1, false)).ending == Drain(Lex(d, 14, 16, [], Init, false)).ending
    ensures TokensOf(Drain(Lex(d, 14, 14, [], Str1, false)).emitted) == [StringToken([97])] + TokensOf(Drain(Lex(d, 14, 16, [], Init, false)).emitted)
  {
    DocScan11(d);
    DrainToken(Lex(d, 14, 14, [], Str1, false), Lex(d, 14, 16, [], Init, false), StringToken([97]));
  }

  lemma DocStep12(d: seq<Unit>)
    requires d == D && Valid(Lex(d, 14, 16, [], Init, false))
    ensures Valid(Lex(d, 16, 17, [], Init, false)) && Drain(Lex(d, 14, 16, [], Init, false)).last == Drain(Lex(d, 16, 17, [], Init, false)).last && Drain(Lex(d, 14, 16, [], Init, false)).ending == Drain(Lex(d, 16, 17, [], Init, false)).ending
    ensures TokensOf(Drain(Lex(d, 14, 16, [], Init, false)).emitted) == [Punct(58)] + TokensOf(Drain(Lex(d, 16, 17, [], Init, false)).emitted)
  {
    assert Step(Lex(d, 14, 16, [], Init, false)) == Next(Lex(d, 16, 17, [], Init, false), Emit(Punct(58))) by {
      assert SkipWhiteSpace(Lex(d, 14, 16, [], Init, false)) == (Lex(d, 14, 17, [], Init, false), Ch(58));
    }
    DrainToken(Lex(d, 14, 16, [], Init, false), Lex(d, 16, 17, [], Init, false), Punct(58));
  }

  lemma DocStep13(d: seq<Unit>)
    requires d == D && Valid(Lex(d, 16, 17, [], Init, false))
    ensures Valid(Lex(d, 17, 18, [], Id1, false)) && Drain(Lex(d, 16, 17, [], Init, false)) == Drain(Lex(d, 17, 18, [], Id1, false))
  {
    assert Step(Lex(d, 16, 17, [], Init, false)) == Next(Lex(d, 17, 18, [], Id1, false), Again) by {
      assert SkipWhiteSpace(Lex(d, 16, 17, [], Init, false)) == (Lex(d, 16, 18, [], Init, false), Ch(116));
    }
    DrainAgain(Lex(d, 16, 17, [], Init, false), Lex(d, 17, 18, [], Id1, false));
  }

  lemma DocScan14(d: seq<Unit>)
    requires d == D && Valid(Lex(d, 17, 18, [], Id1, false))
    ensures Step(Lex(d, 17, 18, [], Id1, false)) == Next(Lex(d, 17, 21, [], Init, false), Emit(IdToken([116, 114, 117, 101])))
  {
    assert AcceptWhile(Lex(d, 17, 18, [], Id1, false), IsIdChar) == AcceptWhile(Lex(d, 17, 19, [], Id1, false), IsIdChar);
    assert AcceptWhile(Lex(d, 17, 19, [], Id1, false), IsIdChar) == AcceptWhile(Lex(d, 17, 20, [], Id1, false), IsIdChar);
    assert AcceptWhile(Lex(d, 17, 20, [], Id1, false), IsIdChar) == AcceptWhile(Lex(d, 17, 21, [], Id1, false), IsIdChar);
    assert AcceptWhile(Lex(d, 17, 21, [], Id1, false), IsIdChar) == Some((Lex(d, 17, 22, [], Id1, false), Ch(125)));
    assert JsSlice(d, 17, 21) == [116, 114, 117, 101];
  }

  lemma DocStep14(d: seq<Unit>)
    requires d == D && Valid(Lex(d, 17, 18, [], Id1, false))
    ensures Valid(Lex(d, 17, 21, [], Init, false)) && Drain(Lex(d, 17, 18, [], Id1, false)).last == Drain(Lex(d, 17, 21, [], Init, false)).last && Drain(Lex(d, 17, 18, [], Id1, false)).ending == Drain(Lex(d, 17, 21, [], Init, false)).ending
    ensures TokensOf(Drain(Lex(d, 17, 18, [], Id1, false)).emitted) == [IdToken([116, 114, 117, 101])] + TokensOf(Drain(Lex(d, 17, 21, [], Init, false)).emitted)
  {
    DocScan14(d);
    DrainToken(Lex(d, 17, 18, [], Id1, false), Lex(d, 17, 21, [], Init, false), IdToken([116, 114, 117, 101]));
  }

  lemma DocStep15(d: seq<Unit>)
    requires d == D && Valid(Lex(d, 17, 21, [], Init, false))
    ensures Valid(Lex(d, 21, 22, [], Init, false)) && Drain(Lex(d, 17, 21, [], Init, false)).last == Drain(Lex(d, 21, 22, [], Init, false)).last && Drain(Lex(d, 17, 21, [], Init, false)).ending == Drain(Lex(d, 21, 22, [], Init, false)).ending
    ensures TokensOf(Drain(Lex(d, 17, 21, [], Init, false)).emitted) == [Punct(125)] + TokensOf(Drain(Lex(d, 21, 22, [], Init, false)).emitted)
  {
    assert Step(Lex(d, 17, 21, [], Init, false)) == Next(Lex(d, 21, 22, [], Init, false), Emit(Punct(125))) by {
      assert SkipWhiteSpace(Lex(d, 17, 21, [], Init, false)) == (Lex(d, 17, 22, [], Init, false), Ch(125));
    }
    DrainToken(Lex(d, 17, 21, [], Init, false), Lex(d, 21, 22, [], Init, false), Punct(125));
  }

  lemma DocStep16(d: seq<Unit>)
    requires d == D && Valid(Lex(d, 21, 22, [], Init, false))
    ensures Drain(Lex(d, 21, 22, [], Init, false)) == Drained([], Lex(d, 23, 23, [], Init, false), Broke(EmptyLexeme))
  {
    assert Step(Lex(d, 21, 22, [], Init, false)) == Next(Lex(d, 23, 23, [], Init, false), EmptyLexeme) by {
      assert SkipWhiteSpace(Lex(d, 21, 22, [], Init, false)) == SkipWhiteSpace(Lex(d, 21, 23, [], Init, false));
      assert SkipWhiteSpace(Lex(d, 21, 23, [], Init, false)) == (Lex(d, 21, 23, [], Init, false), Empty);
    }
    DrainBreak(Lex(d, 21, 22, [], Init, false), Lex(d, 23, 23, [], Init, false), EmptyLexeme);
  }

  lemma DocSegment1(d: seq<Unit>)
    requires d == D
    ensures Valid(Lex(d, 0, 0, [], Init, false)) && Drain(Lex(d, 0, 0, [], Init, false)).last == Lex(d, 23, 23, [], Init, false) && Drain(Lex(d, 0, 0, [], Init, false)).ending == Broke(EmptyLexeme)
    ensures TokensOf(Drain(Lex(d, 0, 0, [], Init, false)).emitted) == DOC_TOKENS[0..]
  {
    DocSegment2(d);
    DocStep1(d);
  }

  lemma DocSegment2(d: seq<Unit>)
    requires d == D
    ensures Valid(Lex(d, 0, 1, [], Num1, false)) && Drain(Lex(d, 0, 1, [], Num1, false)).last == Lex(d, 23, 23, [], Init, false) && Drain(Lex(d, 0, 1, [], Num1, false)).ending == Broke(EmptyLexeme)
    ensures TokensOf(Drain(Lex(d, 0, 1, [], Num1, false)).emitted) == DOC_TOKENS[0..]
  {
    DocSegment3(d);
    DocStep2(d);
    SliceCons(DOC_TOKENS, 0);
  }

  lemma DocSegment3(d: seq<Unit>)
    requires d == D
    ensures Valid(Lex(d, 0, 1, [], Init, false)) && Drain(Lex(d, 0, 1, [], Init, false)).last == Lex(d, 23, 23, [], Init, false) && Drain(Lex(d, 0, 1, [], Init, false)).ending == Broke(EmptyLexeme)
    ensures TokensOf(Drain(Lex(d, 0, 1, [], Init, false)).emitted) == DOC_TOKENS[1..]
  {
    DocSegment4(d);
    DocStep3(d);
  }

  lemma DocSegment4(d: seq<Unit>)
    requires d == D
    ensures Valid(Lex(d, 3, 3, [], Str1, false)) && Drain(Lex(d, 3, 3, [], Str1, false)).last == Lex(d, 23, 23, [], Init, false) && Drain(Lex(d, 3, 3, [], Str1, false)).ending == Broke(EmptyLexeme)
    ensures TokensOf(Drain(Lex(d, 3, 3, [], Str1, false)).emitted) == DOC_TOKENS[1..]
  {
    DocSegment5(d);
    DocStep4(d);
    SliceCons(DOC_TOKENS, 1);
  }

  lemma DocSegment5(d: seq<Unit>)
    requires d == D
    ensures Valid(Lex(d, 3, 7, [], Init, false)) && Drain(Lex(d, 3, 7, [], Init, false)).last == Lex(d, 23, 23, [], Init, false) && Drain(Lex(d, 3, 7, [], Init, false)).ending == Broke(EmptyLexeme)
    ensures TokensOf(Drain(Lex(d, 3, 7, [], Init, false)).emitted) == DOC_TOKENS[2..]
  {
    DocSegment6(d);
    DocStep5(d);
    SliceCons(DOC_TOKENS, 2);
  }

  lemma DocSegment6(d: seq<Unit>)
    requires d == D
    ensures Valid(Lex(d, 8, 9, [], Init, false)) && Drain(Lex(d, 8, 9, [], Init, false)).last == Lex(d, 23, 23, [], Init, false) && Drain(Lex(d, 8, 9, [], Init, false)).ending == Broke(EmptyLexeme)
    ensures TokensOf(Drain(Lex(d, 8, 9, [], Init, false)).emitted) == DOC_TOKENS[3..]
  {
    DocSegment7(d);
    DocStep6(d);
  }

  lemma DocSegment7(d: seq<Unit>)
    requires d == D
    ensures Valid(Lex(d, 9, 10, [], Num1, false)) && Drain(Lex(d, 9, 10, [], Num1, false)).last == Lex(d, 23, 23, [], Init, false) && Drain(Lex(d, 9, 10, [], Num1, false)).ending == Broke(EmptyLexeme)
    ensures TokensOf(Drain(Lex(d, 9, 10, [], Num1, false)).emitted) == DOC_TOKENS[3..]
  {
    DocSegment8(d);
    DocStep7(d);
    SliceCons(DOC_TOKENS, 3);
  }

  lemma DocSegment8(d: seq<Unit>)
    requires d == D
    ensures Valid(Lex(d, 9, 10, [], Init, false)) && Drain(Lex(d, 9, 10, [], Init, false)).last == Lex(d, 23, 23, [], Init, false) && Drain(Lex(d, 9, 10, [], Init, false)).ending == Broke(EmptyLexeme)
    ensures TokensOf(Drain(Lex(d, 9, 10, [], Init, false)).emitted) == DOC_TOKENS[4..]
  {
    DocSegment9(d);
    DocStep8(d);
    SliceCons(DOC_TOKENS, 4);
  }

  lemma DocSegment9(d: seq<Unit>)
    requires d == D
    ensures Valid(Lex(d, 10, 11, [], Init, false)) && Drain(Lex(d, 10, 11, [], Init, false)).last == Lex(d, 23, 23, [], Init, false) && Drain(Lex(d, 10, 11, [], Init, false)).ending == Broke(EmptyLexeme)
    ensures TokensOf(Drain(Lex(d, 10, 11, [], Init, false)).emitted) == DOC_TOKENS[5..]
  {
    DocSegment10(d);
    DocStep9(d);
    SliceCons(DOC_TOKENS, 5);
  }

  lemma DocSegment10(d: seq<Unit>)
    requires d == D
    ensures Valid(Lex(d, 12, 13, [], Init, false)) && Drain(Lex(d, 12, 13, [], Init, false)).last == Lex(d, 23, 23, [], Init, false) && Drain(Lex(d, 12, 13, [], Init, false)).ending == Broke(EmptyLexeme)
    ensures TokensOf(Drain(Lex(d, 12, 13, [], Init, false)).emitted) == DOC_TOKENS[6..]
  {
    DocSegment11(d);
    DocStep10(d);
  }

  lemma DocSegment11(d: seq<Unit>)
    requires d == D
    ensures Valid(Lex(d, 14, 14, [], Str1, false)) && Drain(Lex(d, 14, 14, [], Str1, false)).last == Lex(d, 23, 23, [], Init, false) && Drain(Lex(d, 14, 14, [], Str1, false)).ending == Broke(EmptyLexeme)
    ensures TokensOf(Drain(Lex(d, 14, 14, [], Str1, false)).emitted) == DOC_TOKENS[6..]
  {
    DocSegment12(d);
    DocStep11(d);
    SliceCons(DOC_TOKENS, 6);
  }

  lemma DocSegment12(d: seq<Unit>)
    requires d == D
    ensures Valid(Lex(d, 14, 16, [], Init, false)) && Drain(Lex(d, 14, 16, [], Init, false)).last == Lex(d, 23, 23, [], Init, false) && Drain(Lex(d, 14, 16, [], Init, false)).ending == Broke(EmptyLexeme)
    ensures TokensOf(Drain(Lex(d, 14, 16, [], Init, false)).emitted) == DOC_TOKENS[7..]
  {
    DocSegment13(d);
    DocStep12(d);
    SliceCons(DOC_TOKENS, 7);
  }

  lemma DocSegment13(d: seq<Unit>)
    requires d == D
    ensures Valid(Lex(d, 16, 17, [], Init, false)) && Drain(Lex(d, 16, 17, [], Init, false)).last == Lex(d, 23, 23, [], Init, false) && Drain(Lex(d, 16, 17, [], Init, false)).ending == Broke(EmptyLexeme)
    ensures TokensOf(Drain(Lex(d, 16, 17, [], Init, false)).emitted) == DOC_TOKENS[8..]
  {
    DocSegment14(d);
    DocStep13(d);
  }

  lemma DocSegment14(d: seq<Unit>)
    requires d == D
    ensures Valid(Lex(d, 17, 18, [], Id1, false)) && Drain(Lex(d, 17, 18, [], Id1, false)).last == Lex(d, 23, 23, [], Init, false) && Drain(Lex(d, 17, 18, [], Id1, false)).ending == Broke(EmptyLexeme)
    ensures TokensOf(Drain(Lex(d, 17, 18, [], Id1, false)).emitted) == DOC_TOKENS[8..]
  {
    DocSegment15(d);
    DocStep14(d);
    SliceCons(DOC_TOKENS, 8);
  }

  lemma DocSegment15(d: seq<Unit>)
    requires d == D
    ensures Valid(Lex(d, 17, 21, [], Init, false)) && Drain(Lex(d, 17, 21, [], Init, false)).last == Lex(d, 23, 23, [], Init, false) && Drain(Lex(d, 17, 21, [], Init, false)).ending == Broke(EmptyLexeme)
    ensures TokensOf(Drain(Lex(d, 17, 21, [], Init, false)).emitted) == DOC_TOKENS[9..]
  {
    DocSegment16(d);
    DocStep15(d);
    SliceCons(DOC_TOKENS, 9);
  }

  lemma DocSegment16(d: seq<Unit>)
    requires d == D
    ensures Valid(Lex(d, 21, 22, [], Init, false)) && Drain(Lex(d, 21, 22, [], Init, false)).last == Lex(d, 23, 23, [], Init, false) && Drain(Lex(d, 21, 22, [], Init, false)).ending == Broke(EmptyLexeme)
    ensures TokensOf(Drain(Lex(d, 21, 22, [], Init, false)).emitted) == DOC_TOKENS[10..]
  {
    DocStep16(d);
    assert DOC_TOKENS[10..] == [];
  }

  /** Lexing the example forwards its ten tokens and stops for more input
      after the trailing space. */
  lemma DocExampleLexes(d: seq<Unit>)
    requires d == D
    ensures LexAll(INITIAL, [d]) == Run(DOC_TOKENS, Lex(d, 23, 23, [], Init, false), false, 1)
  {
    assert Splice(INITIAL, d) == Lex(d, 0, 0, [], Init, false);
    DocSegment1(d);
    assert [d][1..] == [];
    assert LexAll(Lex(d, 23, 23, [], Init, false), []) == Run([], Lex(d, 23, 23, [], Init, false), false, 0);
    assert DOC_TOKENS[0..] == DOC_TOKENS;
    assert DOC_TOKENS + [] == DOC_TOKENS;
  }

  /** The texts of the example: a number, a string, an array and an object. */
  const DOC_DOCS: seq<Doc> := [DNumber([49]), DString([97, 98, 99]), DArray([DNumber([49])]), DObject([Member([97], DTrue)])]

  const DOC_VALUES: seq<JsonValue> :=
    [JNumber([49]), JString([97, 98, 99]), JArray([JNumber([49])]), JObject(map[[97] := JBool(true)])]

  lemma DocExampleTexts()
    ensures DocsTokens(DOC_DOCS) == DOC_TOKENS
  {
    var ds := DOC_DOCS;
    assert Tokens(ds[3]) == [Punct(LBRACE), StringToken([97]), Punct(COLON), IdToken([116, 114, 117, 101]), Punct(RBRACE)] by {
      assert MemberTokens([Member([97], DTrue)]) == [StringToken([97]), Punct(COLON), IdToken([116, 114, 117, 101])];
    }
    assert Tokens(ds[2]) == [Punct(LBRACKET), NumberToken([49]), Punct(RBRACKET)] by {
      assert ItemTokens([DNumber([49])]) == [NumberToken([49])];
    }
    assert DocsTokens(ds[3..]) == Tokens(ds[3]) by {
      assert ds[3..][1..] == [];
    }
    assert DocsTokens(ds[2..]) == Tokens(ds[2]) + DocsTokens(ds[3..]) by {
      assert ds[2..][1..] == ds[3..];
    }
    assert DocsTokens(ds[1..]) == Tokens(ds[1]) + DocsTokens(ds[2..]) by {
      assert ds[1..][1..] == ds[2..];
    }
  }

  lemma DocExampleValues()
    ensures DocsValues(DOC_DOCS) == DOC_VALUES
  {
    var ds := DOC_DOCS;
    assert Value(ds[3]) == JObject(map[[97] := JBool(true)]) by {
      assert MemberFields(map[], [Member([97], DTrue)]) == MemberFields(map[[97] := JBool(true)], []);
    }
    assert DocsValues(ds[3..]) == [Value(ds[3])] by {
      assert ds[3..][1..] == [];
    }
    assert DocsValues(ds[2..]) == [Value(ds[2])] + DocsValues(ds[3..]) by {
      assert ds[2..][1..] == ds[3..];
    }
    assert DocsValues(ds[1..]) == [Value(ds[1])] + DocsValues(ds[2..]) by {
      assert ds[1..][1..] == ds[2..];
    }
    assert Value(ds[2]) == JArray([JNumber([49])]) by {
      assert ItemValues([DNumber([49])]) == [JNumber([49])];
    }
    assert DocsValues(ds) == [Value(ds[0])] + DocsValues(ds[1..]);
  }

  /** The example decodes to 1, "abc", [1] and {a: true}, in that order. */
  lemma DocExampleDecodes(d: seq<Unit>, f: Consumer<JsonValue>)
    requires d == D
    ensures DecodeAll(INITIAL, START, [d], f).values == Cut(DOC_VALUES, f)
  {
    DocExampleLexes(d);
    DocExampleTexts();
    TopLevelSequence(DOC_DOCS);
    DocExampleValues();
    FromJsonValues([d], f);
  }

  /** A number that ends its fragment is not forwarded: the drive loop stops
      for more input, since only the next character can close it. */
  lemma LastNumberWaits()
    ensures LexAll(INITIAL, [[49]]) == Run([], Lex([49], 1, 1, [], Num1, false), false, 1)
  {
    var b: seq<Unit> := [49];
    var s0 := Lex(b, 0, 0, [], Init, false);
    var s1 := Lex(b, 1, 1, [], Num1, false);
    assert Splice(INITIAL, b) == s0;
    assert Step(s0) == Next(s1, Again) by {
      assert SkipWhiteSpace(s0) == (s0.(current := 1), Ch(49));
    }
    assert Step(s1) == Next(s1, EmptyLexeme) by {
      assert AcceptWhile(s1, IsDigit) == Some((s1, Empty));
    }
    DrainBreak(s1, s1, EmptyLexeme);
    DrainAgain(s0, s1);
    assert [b][1..] == [];
    assert LexAll(s1, []) == Run([], s1, false, 0);
  }

  /** With a trailing space the same number is forwarded. */
  lemma TrailingSpaceCloses()
    ensures LexAll(INITIAL, [[49, SPACE]]).tokens == [NumberToken([49])]
  {
    var b: seq<Unit> := [49, SPACE];
    var s0 := Lex(b, 0, 0, [], Init, false);
    var s1 := Lex(b, 0, 1, [], Num1, false);
    var s2 := Lex(b, 0, 1, [], Init, false);
    var s3 := Lex(b, 2, 2, [], Init, false);
    assert Splice(INITIAL, b) == s0;
    assert Step(s0) == Next(s1, Again) by {
      assert SkipWhiteSpace(s0) == (s0.(current := 1), Ch(49));
    }
    assert Step(s1) == Next(s2, Emit(NumberToken([49]))) by {
      assert AcceptWhile(s1, IsDigit) == Some((s1.(current := 2), Ch(SPACE)));
      assert JsSlice(b, 0, 1) == [49];
    }
    assert Step(s2) == Next(s3, EmptyLexeme) by {
      assert SkipWhiteSpace(s2) == SkipWhiteSpace(s2.(current := 2));
      assert SkipWhiteSpace(s2.(current := 2)) == (s2.(current := 2), Empty);
    }
    DrainBreak(s2, s3, EmptyLexeme);
    DrainToken(s1, s2, NumberToken([49]));
    DrainAgain(s0, s1);
    assert [b][1..] == [];
    assert LexAll(s3, []) == Run([], s3, false, 0);
    assert [NumberToken([49])] + [] == [NumberToken([49])];
  }
}
