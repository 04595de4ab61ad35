/** stream(...).fromJson().each(f): the fragment source drives the lexer's
    fragment callback, whose drive loop hands each token to the parser's
    callback, which hands each completed value to f. A STOP from f ends the
    drive loop and is returned to the fragment source, which pulls no more
    fragments. */
module JsonDecode {
  import opened Base
  import opened Streams
  import opened StreamOps
  import opened JsonLexer
  import opened JsonParser

  /** How the drive loop left a fragment: as the lexer alone would, or
      because f answered STOP. */
  datatype FeedEnd = LoopEnded(ending: Ending) | ConsumerStop

  datatype Pumped = Pumped(lex: Lex, parser: Parser, values: seq<JsonValue>, end: FeedEnd)

  /** The drive loop (doc/taak_src.js:298-307) with fromjson's callback
      (doc/taak_src.js:317-322) as its consumer; k is f as it stands after
      the values it has been handed before. */
  function Pump(st: Lex, p: Parser, k: Consumer<JsonValue>): (r: Pumped)
    requires Valid(st) && Inv(p)
    ensures Valid(r.lex) && Inv(r.parser)
    decreases |st.buf| - st.current, Rank(st.scan)
  {
    StepKeepsValid(st);
    match Step(st)
    case Hang => Pumped(st, p, [], LoopEnded(Hung))
    case Threw => Pumped(st, p, [], LoopEnded(Crashed))
    case Next(s1, item) =>
      if item.Again? then
        if s1 == st then Pumped(st, p, [], LoopEnded(Hung)) else Pump(s1, p, k)
      else if item.Emit? then
        ParseStepInv(p, item.token);
        var (p1, v) := ParseStep(p, item.token);
        if v.Some? && k([v.value]) == Stop then Pumped(s1, p1, [v.value], ConsumerStop)
        else
          var rest := Pump(s1, p1, if v.Some? then After(k, [v.value]) else k);
          Pumped(rest.lex, rest.parser, Out(v) + rest.values, rest.end)
      else Pumped(s1, p, [], LoopEnded(Broke(item)))
  }

  /** The drive loop after a call that returned `again` with progress. */
  lemma PumpAgain(st: Lex, s1: Lex, p: Parser, k: Consumer<JsonValue>)
    requires Valid(st) && Valid(s1) && Inv(p) && Step(st) == Next(s1, Again) && s1 != st
    ensures Pump(st, p, k) == Pump(s1, p, k)
  {
  }

  /** The drive loop after a call that returned a token. */
  lemma PumpToken(st: Lex, s1: Lex, tok: Token, p: Parser, k: Consumer<JsonValue>)
    requires Valid(st) && Valid(s1) && Inv(p) && Step(st) == Next(s1, Emit(tok)) && Inv(ParseStep(p, tok).0)
    ensures var p1 := ParseStep(p, tok).0;
            var v := ParseStep(p, tok).1;
            Pump(st, p, k) ==
              if v.Some? && k([v.value]) == Stop then Pumped(s1, p1, [v.value], ConsumerStop)
              else
                var rest := Pump(s1, p1, if v.Some? then After(k, [v.value]) else k);
                Pumped(rest.lex, rest.parser, Out(v) + rest.values, rest.end)
  {
  }

  /** The drive loop after a call that ends it. */
  lemma PumpStops(st: Lex, p: Parser, k: Consumer<JsonValue>)
    requires Valid(st) && Inv(p)
    ensures Step(st).Hang? ==> Pump(st, p, k) == Pumped(st, p, [], LoopEnded(Hung))
    ensures Step(st).Threw? ==> Pump(st, p, k) == Pumped(st, p, [], LoopEnded(Crashed))
    ensures Step(st) == Next(st, Again) ==> Pump(st, p, k) == Pumped(st, p, [], LoopEnded(Hung))
    ensures Step(st).Next? && !Step(st).item.Again? && !Step(st).item.Emit? ==>
              Pump(st, p, k) == Pumped(Step(st).after, p, [], LoopEnded(Broke(Step(st).item)))
  {
  }

  /** Handing v and then the rest to a consumer. */
  lemma CutCons<T>(v: T, rest: seq<T>, k: Consumer<T>)
    ensures k([v]) == Stop ==> Cut([v] + rest, k) == [v]
    ensures k([v]) != Stop ==> Cut([v] + rest, k) == [v] + Cut(rest, After(k, [v]))
    ensures k([v]) != Stop ==> (Stopped([v] + Cut(rest, After(k, [v])), k) <==> Stopped(Cut(rest, After(k, [v])), After(k, [v])))
  {
    CutSpec([v], k);
    assert Cut([v], k) == [v];
    CutAppend([v], rest, k);
  }

  /** What PumpMeaning states of one state st. */
  predicate PumpAgrees(st: Lex, p: Parser, k: Consumer<JsonValue>)
    requires Valid(st) && Inv(p)
  {
    var d := Drain(st);
    var parsed := ParseTokens(p, TokensOf(d.emitted));
    var r := Pump(st, p, k);
    r.values == Cut(parsed.values, k) &&
    (r.end.ConsumerStop? <==> Stopped(r.values, k)) &&
    (r.end.LoopEnded? ==> r.values == parsed.values && r.parser == parsed.parser && r.lex == d.last && r.end.ending == d.ending)
  }

  /** The drive loop with fromjson's callback hands f exactly the values the
      parser makes of the tokens the lexer forwards, up to and including the
      one f answers STOP to; when f never does, it ends where the lexer alone
      ends, with the parser where the tokens leave it. */
  lemma {:induction false} PumpMeaning(st: Lex, p: Parser, k: Consumer<JsonValue>)
    requires Valid(st) && Inv(p)
    ensures PumpAgrees(st, p, k)
    decreases |st.buf| - st.current, Rank(st.scan)
  {
    StepKeepsValid(st);
    var step := Step(st);
    if step.Next? && step.item.Again? && step.after != st {
      PumpMeaning(step.after, p, k);
      assert Drain(st) == Drain(step.after);
      assert Pump(st, p, k) == Pump(step.after, p, k);
    } else if step.Next? && step.item.Emit? {
      var s1 := step.after;
      var tok := step.item.token;
      ParseStepInv(p, tok);
      var v := ParseStep(p, tok).1;
      if !(v.Some? && k([v.value]) == Stop) {
        PumpMeaning(s1, ParseStep(p, tok).0, if v.Some? then After(k, [v.value]) else k);
      }
      PumpEmit(st, s1, tok, p, k);
    } else {
      assert TokensOf([]) == [];
    }
  }

  /** A forwarded token is the first token the parser is given. */
  lemma DrainParseEmit(st: Lex, s1: Lex, tok: Token, p: Parser)
    requires Valid(st) && Inv(p) && Valid(s1)
    requires Step(st) == Next(s1, Emit(tok))
    requires Inv(ParseStep(p, tok).0)
    ensures var d := Drain(st);
            var rest := Drain(s1);
            var later := ParseTokens(ParseStep(p, tok).0, TokensOf(rest.emitted));
            d.last == rest.last && d.ending == rest.ending &&
            ParseTokens(p, TokensOf(d.emitted)) == Parsed(later.parser, Out(ParseStep(p, tok).1) + later.values)
  {
    DrainToken(st, s1, tok);
    var later := TokensOf(Drain(s1).emitted);
    assert ([tok] + later)[0] == tok && ([tok] + later)[1..] == later;
  }

  /** The step of PumpMeaning for a token. */
  lemma PumpEmit(st: Lex, s1: Lex, tok: Token, p: Parser, k: Consumer<JsonValue>)
    requires Valid(st) && Inv(p) && Valid(s1)
    requires Step(st) == Next(s1, Emit(tok))
    requires Inv(ParseStep(p, tok).0)
    requires var (p1, v) := ParseStep(p, tok);
             !(v.Some? && k([v.value]) == Stop) ==> PumpAgrees(s1, p1, if v.Some? then After(k, [v.value]) else k)
    ensures PumpAgrees(st, p, k)
  {
    DrainParseEmit(st, s1, tok, p);
    PumpToken(st, s1, tok, p, k);
    var (p1, v) := ParseStep(p, tok);
    var later := ParseTokens(p1, TokensOf(Drain(s1).emitted));
    if v.Some? {
      assert Out(v) == [v.value];
      CutCons(v.value, later.values, k);
    } else {
      assert Out(v) + later.values == later.values;
    }
  }

  /** The whole of stream(fragments).fromJson().each(f): the values f is
      handed, how many fragments the array source handed on, and whether
      the run ended on a STOP from f or hung in the drive loop. */
  datatype Decoding = Decoding(values: seq<JsonValue>, pulled: nat, stopped: bool, hung: bool)

  function DecodeAll(st: Lex, p: Parser, frags: seq<seq<Unit>>, k: Consumer<JsonValue>): (r: Decoding)
    requires Valid(st) && Inv(p)
    ensures r.pulled <= |frags|
    decreases |frags|
  {
    if frags == [] then Decoding([], 0, false, false)
    else
      SpliceFacts(st, frags[0]);
      var r := Pump(Splice(st, frags[0]), p, k);
      if r.end.ConsumerStop? then Decoding(r.values, 1, true, false)
      else if !r.end.ending.Broke? then Decoding(r.values, 1, false, true)
      else
        var rest := DecodeAll(r.lex, r.parser, frags[1..], After(k, r.values));
        Decoding(r.values + rest.values, 1 + rest.pulled, rest.stopped, rest.hung)
  }

  /** What DecodeMeaning states of one starting point. */
  predicate DecodeAgrees(st: Lex, p: Parser, frags: seq<seq<Unit>>, k: Consumer<JsonValue>)
    requires Valid(st) && Inv(p)
  {
    var run := LexAll(st, frags);
    var r := DecodeAll(st, p, frags, k);
    r.values == Cut(ParseTokens(p, run.tokens).values, k) &&
    (r.stopped <==> Stopped(r.values, k)) &&
    (!r.stopped ==> r.hung == run.hung && r.pulled == run.pulled) &&
    (r.stopped ==> 0 < r.pulled <= run.pulled)
  }

  /** One fragment of the run. */
  lemma DecodeFirst(st: Lex, p: Parser, frags: seq<seq<Unit>>, k: Consumer<JsonValue>)
    requires Valid(st) && Inv(p) && frags != []
    ensures Valid(Splice(st, frags[0]))
    ensures var r := Pump(Splice(st, frags[0]), p, k);
            DecodeAll(st, p, frags, k) ==
              if r.end.ConsumerStop? then Decoding(r.values, 1, true, false)
              else if !r.end.ending.Broke? then Decoding(r.values, 1, false, true)
              else
                var rest := DecodeAll(r.lex, r.parser, frags[1..], After(k, r.values));
                Decoding(r.values + rest.values, 1 + rest.pulled, rest.stopped, rest.hung)
  {
    SpliceFacts(st, frags[0]);
  }

  /** f is handed the values the parser makes of all the tokens the lexer
      forwards for the fragments, cut at its first STOP; without a STOP the
      run pulls and hangs exactly as the lexer alone does, and with one it
      pulls no fragment beyond the one f stopped in. */
  lemma {:induction false} DecodeMeaning(st: Lex, p: Parser, frags: seq<seq<Unit>>, k: Consumer<JsonValue>)
    requires Valid(st) && Inv(p)
    ensures DecodeAgrees(st, p, frags, k)
    decreases |frags|, 1
  {
    if frags != [] {
      SpliceFacts(st, frags[0]);
      var r := Pump(Splice(st, frags[0]), p, k);
      if r.end.ConsumerStop? {
        DecodeStopped(st, p, frags, k);
      } else if r.end.ending.Broke? {
        DecodeContinues(st, p, frags, k);
      } else {
        DecodeHangs(st, p, frags, k);
      }
    }
  }

  /** Once a consumer has stopped, nothing more reaches it. */
  lemma CutStoppedPrefix<T>(s1: seq<T>, s2: seq<T>, k: Consumer<T>)
    requires Stopped(Cut(s1, k), k)
    ensures Cut(s1 + s2, k) == Cut(s1, k)
  {
    CutSpec(s1, k);
    if |Cut(s1, k)| == |s1| {
      assert Cut(s1, k) == s1;
    }
    CutAppend(s1, s2, k);
  }

  lemma DecodeStopped(st: Lex, p: Parser, frags: seq<seq<Unit>>, k: Consumer<JsonValue>)
    requires Valid(st) && Inv(p) && frags != [] && Valid(Splice(st, frags[0]))
    requires Pump(Splice(st, frags[0]), p, k).end.ConsumerStop?
    ensures DecodeAgrees(st, p, frags, k)
  {
    var s1 := Splice(st, frags[0]);
    PumpMeaning(s1, p, k);
    var d := Drain(s1);
    var t1 := TokensOf(d.emitted);
    var parsed := ParseTokens(p, t1);
    var r := Pump(s1, p, k);
    assert DecodeAll(st, p, frags, k) == Decoding(r.values, 1, true, false);
    var run := LexAll(st, frags);
    var rest := if d.ending.Broke? then LexAll(d.last, frags[1..]).tokens else [];
    assert run.tokens == t1 + rest;
    ParseTokensAppend(p, t1, rest);
    CutStoppedPrefix(parsed.values, ParseTokens(parsed.parser, rest).values, k);
  }

  lemma DecodeHangs(st: Lex, p: Parser, frags: seq<seq<Unit>>, k: Consumer<JsonValue>)
    requires Valid(st) && Inv(p) && frags != [] && Valid(Splice(st, frags[0]))
    requires Pump(Splice(st, frags[0]), p, k).end.LoopEnded? && !Pump(Splice(st, frags[0]), p, k).end.ending.Broke?
    ensures DecodeAgrees(st, p, frags, k)
  {
    var s1 := Splice(st, frags[0]);
    PumpMeaning(s1, p, k);
    assert LexAll(st, frags).tokens == TokensOf(Drain(s1).emitted);
  }

  lemma {:induction false} DecodeContinues(st: Lex, p: Parser, frags: seq<seq<Unit>>, k: Consumer<JsonValue>)
    requires Valid(st) && Inv(p) && frags != [] && Valid(Splice(st, frags[0]))
    requires Pump(Splice(st, frags[0]), p, k).end.LoopEnded? && Pump(Splice(st, frags[0]), p, k).end.ending.Broke?
    ensures DecodeAgrees(st, p, frags, k)
    decreases |frags|, 0
  {
    var s1 := Splice(st, frags[0]);
    PumpMeaning(s1, p, k);
    var r := Pump(s1, p, k);
    DecodeMeaning(r.lex, r.parser, frags[1..], After(k, r.values));
    var d := Drain(s1);
    var t1 := TokensOf(d.emitted);
    var parsed := ParseTokens(p, t1);
    var v1 := parsed.values;
    var run2 := LexAll(d.last, frags[1..]);
    assert LexAll(st, frags) == Run(t1 + run2.tokens, run2.last, run2.hung, 1 + run2.pulled);
    ParseTokensAppend(p, t1, run2.tokens);
    var v2 := ParseTokens(parsed.parser, run2.tokens).values;
    CutAppend(v1, v2, k);
    var c2 := Cut(v2, After(k, v1));
    if c2 != [] {
      assert k(v1 + c2) == After(k, v1)(c2);
    } else {
      assert v1 + c2 == v1;
    }
  }

  /** The same for the run from the start: f is handed exactly the values
      the tokens of all fragments parse to, up to its first STOP. */
  lemma FromJsonValues(frags: seq<seq<Unit>>, f: Consumer<JsonValue>)
    ensures DecodeAll(INITIAL, START, frags, f).values == Cut(ParseTokens(START, LexAll(INITIAL, frags).tokens).values, f)
  {
    DecodeMeaning(INITIAL, START, frags, f);
  }
}
