/** The lexer and the parser as the objects they are in the source: the
    lexer's fields and the parser's `stack` and `state` are updated in place
    by the scan and state functions. Every method is proved to do what the
    pure step function of the same name says. */
module JsonObjects {
  import opened Base
  import opened JsonLexer
  import opened JsonParser
  import opened Streams
  import opened StreamOps
  import opened JsonDecode

  /** How a call of a scan function ends: it returns a lexeme, never
      returns (acceptWhile spinning at the end of the buffer), or throws. */
  datatype Outcome = Lexed(item: Lexeme) | Looped | Raised

  /** A call that ended with o, leaving the lexer in state now, is the step r. */
  predicate Agrees(r: StepResult, now: Lex, o: Outcome)
  {
    match r
    case Next(after, item) => o == Lexed(item) && now == after
    case Hang => o == Looped
    case Threw => o == Raised
  }

  /** The json_lexer object (doc/taak_src.js:23-33). */
  class Lexer {
    var buf: seq<Unit>
    var start: int
    var current: int
    var str: seq<Unit>
    var scan: Scan
    var ended: bool

    function State(): Lex
      reads this
    {
      Lex(buf, start, current, str, scan, ended)
    }

    constructor ()
      ensures State() == INITIAL
    {
      buf := [];
      start := 0;
      current := 0;
      str := [];
      scan := Init;
      ended := false;
    }

    /** nextChar (doc/taak_src.js:35-45). */
    method NextChar() returns (c: Symbol)
      requires 0 <= current
      modifies this
      ensures (State(), c) == JsonLexer.NextChar(old(State()))
    {
      if current < |buf| {
        c := Ch(buf[current]);
        current := current + 1;
      } else if ended {
        c := End;
      } else {
        c := Empty;
      }
    }

    /** skip(isWhiteSpace) (doc/taak_src.js:47-58). */
    method Skip() returns (c: Symbol)
      requires Valid(State())
      modifies this
      ensures (State(), c) == JsonLexer.Skip(old(State()))
    {
      c := NextChar();
      while IsWhiteSpace(c)
        invariant 0 <= current <= |buf| && buf == old(buf)
        invariant JsonLexer.SkipWhiteSpace(old(State())) ==
                  (if IsWhiteSpace(c) then JsonLexer.SkipWhiteSpace(State()) else (State(), c))
        decreases |buf| - current + (if IsWhiteSpace(c) then 1 else 0)
      {
        c := NextChar();
      }
      if current == |buf| {
        start := current;
      } else {
        start := current - 1;
      }
    }

    /** acceptWhile (doc/taak_src.js:60-66). Where the source's loop would
        spin forever, because pred holds of the marker read at the end of the
        buffer, the method stops and reports `spinning`. */
    method AcceptWhile(pred: Symbol -> bool) returns (c: Symbol, spinning: bool)
      requires Valid(State())
      modifies this
      ensures spinning <==> JsonLexer.AcceptWhile(old(State()), pred).None?
      ensures !spinning ==> JsonLexer.AcceptWhile(old(State()), pred) == Some((State(), c))
    {
      var before := current;
      c := NextChar();
      spinning := false;
      while pred(c)
        invariant before <= current <= |buf| && 0 <= before && buf == old(buf) && !spinning
        invariant JsonLexer.AcceptWhile(old(State()), pred) ==
                  (if !pred(c) then Some((State(), c))
                   else if current == before then None
                   else JsonLexer.AcceptWhile(State(), pred))
        decreases |buf| - before
      {
        if current == before {
          spinning := true;
          return;
        }
        before := current;
        c := NextChar();
      }
    }

    /** The character that ended a number or identifier is put back and the
        text from start is the token. */
    method PutBack(number: bool) returns (o: Outcome)
      modifies this
      ensures Agrees(JsonLexer.PutBack(old(State()), number), State(), o)
    {
      scan := Init;
      current := current - 1;
      var text := JsSlice(buf, start, current);
      o := Lexed(Emit(if number then NumberToken(text) else IdToken(text)));
    }

    /** lex_init (doc/taak_src.js:72-108). */
    method LexInit() returns (o: Outcome)
      requires Valid(State())
      modifies this
      ensures Agrees(InitStep(old(State())), State(), o)
    {
      var c := Skip();
      o := Lexed(Again);
      if c == End {
        o := Lexed(EndLexeme);
      } else if c == Empty {
        o := Lexed(EmptyLexeme);
      } else if Is(c, QUOTE) {
        start := current;
        scan := Str1;
      } else if IsDigit(c) {
        scan := Num1;
      } else if Is(c, MINUS) {
        scan := Num2;
      } else if Is(c, DOT) {
        scan := Num3;
      } else if IsStructural(c) {
        o := Lexed(Emit(Punct(c.u)));
      } else if IsIdStartChar(c) {
        scan := Id1;
      } else {
        scan := LexError;
      }
    }

    /** lex_num1 (doc/taak_src.js:114-130). */
    method LexNum1() returns (o: Outcome)
      requires Valid(State())
      modifies this
      ensures Agrees(Num1Step(old(State())), State(), o)
    {
      var c, spinning := AcceptWhile(IsDigit);
      if spinning {
        return Looped;
      }
      if c == Empty {
        o := Lexed(EmptyLexeme);
      } else if Is(c, DOT) {
        scan := Num4;
        o := Lexed(Again);
      } else if IsExponentMark(c) {
        scan := Num5;
        o := Lexed(Again);
      } else {
        o := PutBack(true);
      }
    }

    /** lex_num2 (doc/taak_src.js:132-145). */
    method LexNum2() returns (o: Outcome)
      requires Valid(State())
      modifies this
      ensures Agrees(Num2Step(old(State())), State(), o)
    {
      var c := NextChar();
      if c == Empty {
        o := Lexed(EmptyLexeme);
      } else if Is(c, DOT) {
        scan := Num3;
        o := Lexed(Again);
      } else if IsDigit(c) {
        scan := Num1;
        o := Lexed(Again);
      } else {
        o := Lexed(Failed(BadNumber));
      }
    }

    /** lex_num3 (doc/taak_src.js:147-158). */
    method LexNum3() returns (o: Outcome)
      requires Valid(State())
      modifies this
      ensures Agrees(Num3Step(old(State())), State(), o)
    {
      var c := NextChar();
      if c == Empty {
        o := Lexed(EmptyLexeme);
      } else if IsDigit(c) {
        scan := Num4;
        o := Lexed(Again);
      } else {
        o := Lexed(Failed(BadNumber));
      }
    }

    /** lex_num4 (doc/taak_src.js:160-173). */
    method LexNum4() returns (o: Outcome)
      requires Valid(State())
      modifies this
      ensures Agrees(Num4Step(old(State())), State(), o)
    {
      var c, spinning := AcceptWhile(IsDigit);
      if spinning {
        return Looped;
      }
      if c == Empty {
        o := Lexed(EmptyLexeme);
      } else if IsExponentMark(c) {
        scan := Num5;
        o := Lexed(Again);
      } else {
        o := PutBack(true);
      }
    }

    /** lex_num5 (doc/taak_src.js:175-188). */
    method LexNum5() returns (o: Outcome)
      requires Valid(State())
      modifies this
      ensures Agrees(Num5Step(old(State())), State(), o)
    {
      var c := NextChar();
      if c == Empty {
        o := Lexed(EmptyLexeme);
      } else if Is(c, PLUS) || Is(c, MINUS) {
        scan := Num6;
        o := Lexed(Again);
      } else if IsDigit(c) {
        scan := Num7;
        o := Lexed(Again);
      } else {
        o := Lexed(Failed(BadNumber));
      }
    }

    /** lex_num6 (doc/taak_src.js:190-201). */
    method LexNum6() returns (o: Outcome)
      requires Valid(State())
      modifies this
      ensures Agrees(Num6Step(old(State())), State(), o)
    {
      var c := NextChar();
      if c == Empty {
        o := Lexed(EmptyLexeme);
      } else if IsDigit(c) {
        scan := Num7;
        o := Lexed(Again);
      } else {
        o := Lexed(Failed(BadNumber));
      }
    }

    /** lex_num7 (doc/taak_src.js:203-214). */
    method LexNum7() returns (o: Outcome)
      requires Valid(State())
      modifies this
      ensures Agrees(Num7Step(old(State())), State(), o)
    {
      var c, spinning := AcceptWhile(IsDigit);
      if spinning {
        return Looped;
      }
      if c == Empty {
        o := Lexed(EmptyLexeme);
      } else {
        o := PutBack(true);
      }
    }

    /** lex_str1 (doc/taak_src.js:216-233); the EMPTY branch throws. */
    method LexStr1() returns (o: Outcome)
      requires Valid(State())
      modifies this
      ensures Agrees(Str1Step(old(State())), State(), o)
    {
      var begin := current;
      var c, spinning := AcceptWhile(IsJsonStringChar);
      if spinning {
        return Looped;
      }
      if begin < current - 1 {
        str := str + JsSlice(buf, begin, current - 1);
      }
      o := Lexed(Again);
      if c == Empty {
        o := Raised;
      } else if Is(c, QUOTE) {
        o := Lexed(Emit(StringToken(str)));
        str := [];
        scan := Init;
      } else if Is(c, BACKSLASH) {
        scan := Str2;
      }
    }

    /** lex_str2 (doc/taak_src.js:235-248). */
    method LexStr2() returns (o: Outcome)
      requires Valid(State())
      modifies this
      ensures Agrees(Str2Step(old(State())), State(), o)
    {
      var c := NextChar();
      o := Lexed(Again);
      if Is(c, LOWER_U) {
        scan := Str3;
      } else if IsEscapeLetter(c) {
        str := str + [Unescape(c.u)];
        scan := Str1;
      } else {
        o := Lexed(Failed(BadEscape(c)));
        scan := LexError;
      }
    }

    /** lex_str3 (doc/taak_src.js:250-270); the `ended` branch throws. */
    method LexStr3() returns (o: Outcome)
      requires Valid(State())
      modifies this
      ensures Agrees(Str3Step(old(State())), State(), o)
    {
      o := Lexed(Again);
      if current + 4 < |buf| {
        var code := buf[current..current + 4];
        current := current + 4;
        if AllHex(code) {
          str := str + [HexUnit(code)];
          scan := Str1;
        } else {
          o := Lexed(Failed(BadUnicode(code)));
          scan := LexError;
        }
      } else if ended {
        o := Raised;
      }
    }

    /** id1 (doc/taak_src.js:272-283). */
    method LexId1() returns (o: Outcome)
      requires Valid(State())
      modifies this
      ensures Agrees(Id1Step(old(State())), State(), o)
    {
      var c, spinning := AcceptWhile(IsIdChar);
      if spinning {
        return Looped;
      }
      if c == Empty {
        o := Lexed(EmptyLexeme);
      } else {
        o := PutBack(false);
      }
    }

    /** The head of the fragment callback (doc/taak_src.js:289-295): the
        text from start on is joined to the fragment and the indices shifted. */
    method Splice(fragment: seq<Unit>)
      requires Valid(State())
      modifies this
      ensures State() == JsonLexer.Splice(old(State()), fragment) && Valid(State())
    {
      SpliceFacts(State(), fragment);
      if start >= |buf| {
        buf := fragment;
      } else {
        buf := JsSlice(buf, start, |buf|) + fragment;
      }
      current := if current - start > 0 then current - start else 0;
      start := 0;
    }

    /** `self.state.call(self)`: one call of the current scan function. */
    method Step() returns (o: Outcome)
      requires Valid(State())
      modifies this
      ensures Agrees(JsonLexer.Step(old(State())), State(), o)
    {
      match scan
      case Init => o := LexInit();
      case Num1 => o := LexNum1();
      case Num2 => o := LexNum2();
      case Num3 => o := LexNum3();
      case Num4 => o := LexNum4();
      case Num5 => o := LexNum5();
      case Num6 => o := LexNum6();
      case Num7 => o := LexNum7();
      case Str1 => o := LexStr1();
      case Str2 => o := LexStr2();
      case Str3 => o := LexStr3();
      case Id1 => o := LexId1();
      case LexError => o := Lexed(Failed(UnknownError));
    }
  }


  /** The drive loop's state after a round that did not end it, against
      the loop run from before the round. */
  ghost predicate Continued(r: Pumped, now: Lex, p: Parser, k: Consumer<JsonValue>, vs: seq<JsonValue>)
    requires Valid(now) && Inv(p)
  {
    var rest := Pump(now, p, k);
    r == Pumped(rest.lex, rest.parser, vs + rest.values, rest.end)
  }

  /** The drive loop's result once a round ended it. */
  ghost predicate Ended(r: Pumped, now: Lex, p: Parser, vs: seq<JsonValue>, end: FeedEnd)
  {
    r.values == vs && r.end == end &&
    (end.ConsumerStop? || end.ending.Broke? ==> r.lex == now && r.parser == p)
  }

  /** One round of the drive loop (doc/taak_src.js:298-306): one call of the
      scan function; a token goes to the parser and a value it completes to
      k. `done` says the loop is over; otherwise `next` is k after the values
      handed to it in this round. */
  method Round(lexer: Lexer, parser: ParserMachine, k: Consumer<JsonValue>)
    returns (vs: seq<JsonValue>, next: Consumer<JsonValue>, done: bool, end: FeedEnd)
    requires Valid(lexer.State()) && Inv(parser.State())
    modifies lexer, parser
    ensures !done || end.ConsumerStop? || end.ending.Broke? ==> Valid(lexer.State()) && Inv(parser.State())
    ensures var r := Pump(old(lexer.State()), old(parser.State()), k);
            if done then Ended(r, lexer.State(), parser.State(), vs, end)
            else Below(lexer.State(), old(lexer.State())) && Continued(r, lexer.State(), parser.State(), next, vs)
  {
    var before := lexer.State();
    ghost var p0 := parser.State();
    StepKeepsValid(before);
    PumpStops(before, p0, k);
    var o := lexer.Step();
    vs, next, done, end := [], k, true, LoopEnded(Hung);
    match o
    case Looped =>
    case Raised =>
      end := LoopEnded(Crashed);
    case Lexed(item) =>
      if item.Again? {
        if lexer.State() != before {
          PumpAgain(before, lexer.State(), p0, k);
          done := false;
          assert [] + Pump(lexer.State(), p0, k).values == Pump(lexer.State(), p0, k).values;
        }
      } else if item.Emit? {
        ParseStepInv(p0, item.token);
        PumpToken(before, lexer.State(), item.token, p0, k);
        var v := parser.Consume(item.token);
        if v.Some? {
          vs := [v.value];
          if k([v.value]) == Stop {
            end := ConsumerStop;
            return;
          }
          next := After(k, [v.value]);
        }
        done := false;
      } else {
        end := LoopEnded(Broke(item));
      }
  }

  /** The fragment callback json_lexer.each hands its source
      (doc/taak_src.js:285-308) with fromjson's callback inside: the
      fragment is spliced onto the unconsumed text, then the drive loop
      calls the scan function until it breaks, hands each token to the
      parser, and each value the parser completes to f. k is f as it stands
      after the values handed to it before this fragment. */
  method Feed(lexer: Lexer, fragment: seq<Unit>, parser: ParserMachine, k: Consumer<JsonValue>)
    returns (values: seq<JsonValue>, end: FeedEnd)
    requires Valid(lexer.State()) && Inv(parser.State())
    modifies lexer, parser
    ensures Ended(Pump(Splice(old(lexer.State()), fragment), old(parser.State()), k), lexer.State(), parser.State(), values, end)
  {
    lexer.Splice(fragment);
    ghost var total := Pump(lexer.State(), parser.State(), k);
    var kk := k;
    values := [];
    while true
      invariant Valid(lexer.State()) && Inv(parser.State())
      invariant Continued(total, lexer.State(), parser.State(), kk, values)
      decreases |lexer.buf| - lexer.current, Rank(lexer.scan)
    {
      ghost var r := Pump(lexer.State(), parser.State(), kk);
      var vs, next, done;
      vs, next, done, end := Round(lexer, parser, kk);
      if done {
        values := values + vs;
        return;
      }
      assert Continued(r, lexer.State(), parser.State(), next, vs);
      values := values + vs;
      kk := next;
    }
  }

  /** The parser's closure state in proto_fromjson.each: `stack` and `state`
      (doc/taak_src.js:313-315). */
  class ParserMachine {
    var stack: seq<Frame>
    var phase: Phase

    function State(): Parser
      reads this
    {
      Parser(stack, phase)
    }

    constructor ()
      ensures State() == START
    {
      stack := [];
      phase := S0;
    }

    /** resolve (doc/taak_src.js:407-428). */
    method Resolve(value: JsonValue) returns (out: Option<JsonValue>)
      requires StackShape(stack)
      modifies this
      ensures (State(), out) == JsonParser.Resolve(old(stack), value)
    {
      if stack == [] {
        phase := S0;
        return Some(value);
      }
      out := None;
      var n := |stack|;
      match stack[n - 1]
      case KeyFrame(key) =>
        var target := stack[n - 2];
        stack := stack[..n - 2] + [ObjectFrame(target.fields[key := value])];
        phase := Obj3;
      case ArrayFrame(items) =>
        stack := stack[..n - 1] + [ArrayFrame(items + [value])];
        phase := Arr1;
      case ObjectFrame(_) =>
        phase := Arr1;
    }

    /** `resolve(stack.pop())`. */
    method PopResolve() returns (out: Option<JsonValue>)
      requires StackShape(stack) && stack != [] && !stack[|stack| - 1].KeyFrame?
      modifies this
      ensures (State(), out) == JsonParser.PopResolve(old(stack))
    {
      var top := stack[|stack| - 1];
      PopShape(stack);
      stack := stack[..|stack| - 1];
      out := Resolve(FrameValue(top));
    }

    /** S0 (doc/taak_src.js:325-367). */
    method StateS0(tok: Token) returns (out: Option<JsonValue>)
      requires Inv(State()) && phase == S0
      modifies this
      ensures (State(), out) == S0Step(old(State()), tok)
    {
      out := None;
      if tok == Punct(LBRACE) {
        stack := stack + [ObjectFrame(map[])];
        phase := Obj1;
      } else if tok == Punct(LBRACKET) {
        stack := stack + [ArrayFrame([])];
      } else if tok == Punct(RBRACKET) {
        if stack == [] {
          phase := Error;
        } else {
          var top := stack[|stack| - 1];
          if top.ArrayFrame? {
            PopShape(stack);
            stack := stack[..|stack| - 1];
            out := Resolve(JArray(top.items));
          } else {
            stack := stack[..|stack| - 1];
            phase := Error;
          }
        }
      } else {
        match ScalarValue(tok)
        case Some(v) => out := Resolve(v);
        case None => phase := Error;
      }
    }

    /** The callback symbols.each is given (doc/taak_src.js:317-322): the
        current state function on one token, and the value it returns. */
    method Consume(tok: Token) returns (out: Option<JsonValue>)
      requires Inv(State())
      modifies this
      ensures (State(), out) == ParseStep(old(State()), tok)
      ensures Inv(State())
    {
      ParseStepInv(State(), tok);
      out := None;
      match phase
      case S0 =>
        out := StateS0(tok);
      case Arr1 =>
        if tok == Punct(COMMA) {
          phase := S0;
        } else if tok == Punct(RBRACKET) {
          out := PopResolve();
        }
      case Obj1 =>
        if tok.StringToken? {
          stack := stack + [KeyFrame(tok.text)];
          phase := Obj2;
        } else if tok == Punct(RBRACE) {
          out := PopResolve();
        } else {
          phase := Error;
        }
      case Obj2 =>
        if tok == Punct(COLON) {
          phase := S0;
        } else {
          phase := Error;
        }
      case Obj3 =>
        if tok == Punct(COMMA) {
          phase := Obj1;
        } else if tok == Punct(RBRACE) {
          out := PopResolve();
        }
      case Error =>
    }
  }

  /** What the drive loop of FromJsonEach keeps: the run over all the
      fragments is `out` followed by the run from the current state over the
      fragments not yet pulled. */
  ghost predicate Resumes(total: Decoding, out: seq<JsonValue>, pulled: nat, st: Lex, p: Parser, frags: seq<seq<Unit>>, k: Consumer<JsonValue>)
    requires Valid(st) && Inv(p)
  {
    var rest := DecodeAll(st, p, frags, k);
    total == Decoding(out + rest.values, pulled + rest.pulled, rest.stopped, rest.hung)
  }

  /** Pulling one more fragment either ends the whole run or leaves the rest
      to be decoded from the state the pump reached. */
  lemma ResumeNext(total: Decoding, out: seq<JsonValue>, pulled: nat, st: Lex, p: Parser, frags: seq<seq<Unit>>, k: Consumer<JsonValue>)
    requires Valid(st) && Inv(p) && frags != []
    requires Resumes(total, out, pulled, st, p, frags, k)
    ensures Valid(Splice(st, frags[0]))
    ensures var r := Pump(Splice(st, frags[0]), p, k);
      if r.end.ConsumerStop? || !r.end.ending.Broke? then
        total == Decoding(out + r.values, pulled + 1, r.end.ConsumerStop?, !r.end.ConsumerStop?)
      else
        Valid(r.lex) && Inv(r.parser) && Resumes(total, out + r.values, pulled + 1, r.lex, r.parser, frags[1..], After(k, r.values))
  {
    DecodeFirst(st, p, frags, k);
    var r := Pump(Splice(st, frags[0]), p, k);
    if !r.end.ConsumerStop? && r.end.ending.Broke? {
      var rest := DecodeAll(r.lex, r.parser, frags[1..], After(k, r.values));
      AppendAssoc(out, r.values, rest.values);
    }
  }

  /** stream(fragments).fromJson().each(f): the array source
      (taak.js:742-749) hands each fragment to the lexer's callback and
      stops when it answers STOP; a drive loop that hangs ends the run. */
  method FromJsonEach(frags: seq<seq<Unit>>, f: Consumer<JsonValue>)
    returns (out: seq<JsonValue>, pulled: nat, stopped: bool, hung: bool)
    ensures Decoding(out, pulled, stopped, hung) == DecodeAll(INITIAL, START, frags, f)
  {
    var lexer := new Lexer();
    var parser := new ParserMachine();
    var k := f;
    out, pulled, stopped, hung := [], 0, false, false;
    ghost var total := DecodeAll(INITIAL, START, frags, f);
    assert frags[0..] == frags && [] + total.values == total.values;
    while pulled < |frags|
      invariant pulled <= |frags|
      invariant Valid(lexer.State()) && Inv(parser.State())
      invariant Resumes(total, out, pulled, lexer.State(), parser.State(), frags[pulled..], k)
    {
      var next := frags[pulled..];
      assert next[0] == frags[pulled] && next[1..] == frags[pulled + 1..];
      ResumeNext(total, out, pulled, lexer.State(), parser.State(), next, k);
      var values, end := Feed(lexer, frags[pulled], parser, k);
      pulled := pulled + 1;
      out := out + values;
      if end.ConsumerStop? {
        stopped := true;
        return;
      }
      if !end.ending.Broke? {
        hung := true;
        return;
      }
      k := After(k, values);
    }
    assert frags[pulled..] == [];
  }
}
