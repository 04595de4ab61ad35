/** The incremental JSON lexer of json_lexer (doc/taak_src.js:23-309, the
    same code at doc/zen.js:1299-1585), as pure functions over the lexer's
    fields: one call of a scan function is one Step, and the drive loop run
    on one fragment is Drain. */
module JsonLexer {
  import opened Base

  /** The scan function held in the lexer's `state` field. */
  datatype Scan = Init | Num1 | Num2 | Num3 | Num4 | Num5 | Num6 | Num7 | Str1 | Str2 | Str3 | Id1 | LexError

  /** The lexemes the drive loop hands on: the six structural characters,
      strings (with escapes resolved), numbers and identifiers (as their text). */
  datatype Token = Punct(mark: Unit) | StringToken(text: seq<Unit>) | NumberToken(text: seq<Unit>) | IdToken(text: seq<Unit>)

  datatype ErrorMessage = UnknownError | BadNumber | BadEscape(c: Symbol) | BadUnicode(code: seq<Unit>)

  /** What a scan function returns (doc/taak_src.js:15-21). */
  datatype Lexeme = Again | EmptyLexeme | EndLexeme | Failed(message: ErrorMessage) | Emit(token: Token)

  /** The lexer's fields: `buf`, `start`, `current`, `string`, `state`, `ended`. */
  datatype Lex = Lex(buf: seq<Unit>, start: int, current: int, str: seq<Unit>, scan: Scan, ended: bool)

  /** One call of a scan function: it returns a lexeme, loops forever inside
      acceptWhile, or throws. */
  datatype StepResult = Next(after: Lex, item: Lexeme) | Hang | Threw

  /** The index invariant, and `ended` is never set: no source can yield the
      private END marker, the only thing that sets it (doc/taak_src.js:286-287). */
  predicate Valid(st: Lex)
  {
    0 <= st.start <= st.current <= |st.buf| && !st.ended
  }

  /** String.prototype.slice for the non-negative bounds the lexer passes
      (Valid keeps start and current non-negative): each bound is cut down
      to the length, and crossed bounds give the empty string. JavaScript
      counts a negative bound from the end; no call here passes one, and
      the model reads it as 0. */
  function JsSlice(s: seq<Unit>, b: int, e: int): (r: seq<Unit>)
    ensures 0 <= b <= e <= |s| ==> r == s[b..e]
  {
    var b' := if b < 0 then 0 else if b > |s| then |s| else b;
    var e' := if e < 0 then 0 else if e > |s| then |s| else e;
    if b' < e' then s[b'..e'] else []
  }

  /** nextChar (doc/taak_src.js:35-45). */
  function NextChar(st: Lex): (r: (Lex, Symbol))
    ensures 0 <= st.current < |st.buf| ==> r == (st.(current := st.current + 1), Ch(st.buf[st.current]))
    ensures !(0 <= st.current < |st.buf|) ==> r.0 == st && r.1 == (if st.ended then End else Empty)
  {
    if 0 <= st.current < |st.buf| then (st.(current := st.current + 1), Ch(st.buf[st.current]))
    else if st.ended then (st, End)
    else (st, Empty)
  }

  /** The loop of skip (doc/taak_src.js:48-51) over whitespace. */
  function SkipWhiteSpace(st: Lex): (r: (Lex, Symbol))
    decreases |st.buf| - st.current
  {
    var (s1, c) := NextChar(st);
    if IsWhiteSpace(c) then SkipWhiteSpace(s1)
    else (s1, c)
  }

  /** skip (doc/taak_src.js:47-58): start is set to the index of the character
      read last, except that a character read at the very end of the buffer
      sets it past that character. */
  function Skip(st: Lex): (Lex, Symbol)
  {
    var (s1, c) := SkipWhiteSpace(st);
    (s1.(start := if s1.current == |s1.buf| then s1.current else s1.current - 1), c)
  }

  /** acceptWhile (doc/taak_src.js:60-66); None when the loop never ends,
      which happens when pred holds of the marker nextChar returns at the
      end of the buffer. */
  function AcceptWhile(st: Lex, pred: Symbol -> bool): Option<(Lex, Symbol)>
    decreases |st.buf| - st.current
  {
    var (s1, c) := NextChar(st);
    if !pred(c) then Some((s1, c))
    else if s1.current == st.current then None
    else AcceptWhile(s1, pred)
  }

  /** The end of lex_num1, lex_num4, lex_num7 and id1: the character that
      ended the token is put back and the text from start is the token. */
  function PutBack(s1: Lex, number: bool): StepResult
  {
    var s2 := s1.(scan := Init, current := s1.current - 1);
    var text := JsSlice(s2.buf, s2.start, s2.current);
    Next(s2, Emit(if number then NumberToken(text) else IdToken(text)))
  }

  function IsStructural(c: Symbol): bool
  {
    Is(c, LBRACE) || Is(c, RBRACE) || Is(c, LBRACKET) || Is(c, RBRACKET) || Is(c, COLON) || Is(c, COMMA)
  }

  /** lex_init (doc/taak_src.js:72-108). */
  function InitStep(st: Lex): StepResult
  {
    var (s1, c) := Skip(st);
    if c == End then Next(s1, EndLexeme)
    else if c == Empty then Next(s1, EmptyLexeme)
    else if Is(c, QUOTE) then Next(s1.(start := s1.current, scan := Str1), Again)
    else if IsDigit(c) then Next(s1.(scan := Num1), Again)
    else if Is(c, MINUS) then Next(s1.(scan := Num2), Again)
    else if Is(c, DOT) then Next(s1.(scan := Num3), Again)
    else if IsStructural(c) then Next(s1, Emit(Punct(c.u)))
    else if IsIdStartChar(c) then Next(s1.(scan := Id1), Again)
    else Next(s1.(scan := LexError), Again)
  }

  predicate IsExponentMark(c: Symbol)
  {
    Is(c, LOWER_E) || Is(c, UPPER_E)
  }

  /** lex_num1 (doc/taak_src.js:114-130): integer digits. */
  function Num1Step(st: Lex): StepResult
  {
    match AcceptWhile(st, IsDigit)
    case None => Hang
    case Some((s1, c)) =>
      if c == Empty then Next(s1, EmptyLexeme)
      else if Is(c, DOT) then Next(s1.(scan := Num4), Again)
      else if IsExponentMark(c) then Next(s1.(scan := Num5), Again)
      else PutBack(s1, true)
  }

  /** lex_num2 (doc/taak_src.js:132-145): after a minus sign. A bad character
      is an error that leaves the scan state as it is. */
  function Num2Step(st: Lex): StepResult
  {
    var (s1, c) := NextChar(st);
    if c == Empty then Next(s1, EmptyLexeme)
    else if Is(c, DOT) then Next(s1.(scan := Num3), Again)
    else if IsDigit(c) then Next(s1.(scan := Num1), Again)
    else Next(s1, Failed(BadNumber))
  }

  /** lex_num3 (doc/taak_src.js:147-158): after a point with no digit before it. */
  function Num3Step(st: Lex): StepResult
  {
    var (s1, c) := NextChar(st);
    if c == Empty then Next(s1, EmptyLexeme)
    else if IsDigit(c) then Next(s1.(scan := Num4), Again)
    else Next(s1, Failed(BadNumber))
  }

  /** lex_num4 (doc/taak_src.js:160-173): fraction digits. */
  function Num4Step(st: Lex): StepResult
  {
    match AcceptWhile(st, IsDigit)
    case None => Hang
    case Some((s1, c)) =>
      if c == Empty then Next(s1, EmptyLexeme)
      else if IsExponentMark(c) then Next(s1.(scan := Num5), Again)
      else PutBack(s1, true)
  }

  /** lex_num5 (doc/taak_src.js:175-188): after the exponent mark. */
  function Num5Step(st: Lex): StepResult
  {
    var (s1, c) := NextChar(st);
    if c == Empty then Next(s1, EmptyLexeme)
    else if Is(c, PLUS) || Is(c, MINUS) then Next(s1.(scan := Num6), Again)
    else if IsDigit(c) then Next(s1.(scan := Num7), Again)
    else Next(s1, Failed(BadNumber))
  }

  /** lex_num6 (doc/taak_src.js:190-201): after the exponent sign. */
  function Num6Step(st: Lex): StepResult
  {
    var (s1, c) := NextChar(st);
    if c == Empty then Next(s1, EmptyLexeme)
    else if IsDigit(c) then Next(s1.(scan := Num7), Again)
    else Next(s1, Failed(BadNumber))
  }

  /** lex_num7 (doc/taak_src.js:203-214): exponent digits. */
  function Num7Step(st: Lex): StepResult
  {
    match AcceptWhile(st, IsDigit)
    case None => Hang
    case Some((s1, c)) =>
      if c == Empty then Next(s1, EmptyLexeme)
      else PutBack(s1, true)
  }

  /** lex_str1 (doc/taak_src.js:216-233): the run of plain string characters
      is appended to the string accumulator. Any other character than a
      quote or a backslash (a control character) is dropped. The EMPTY
      branch names the undeclared `lexme` and would throw; acceptWhile never
      returns EMPTY here, since the predicate holds of it. */
  function Str1Step(st: Lex): StepResult
  {
    var begin := st.current;
    match AcceptWhile(st, IsJsonStringChar)
    case None => Hang
    case Some((s1, c)) =>
      var s2 := if begin < s1.current - 1 then s1.(str := s1.str + JsSlice(s1.buf, begin, s1.current - 1)) else s1;
      if c == Empty then Threw
      else if Is(c, QUOTE) then Next(s2.(str := [], scan := Init), Emit(StringToken(s2.str)))
      else if Is(c, BACKSLASH) then Next(s2.(scan := Str2), Again)
      else Next(s2, Again)
  }

  /** lex_str2 (doc/taak_src.js:235-248): the character after a backslash. */
  function Str2Step(st: Lex): StepResult
  {
    var (s1, c) := NextChar(st);
    if Is(c, LOWER_U) then Next(s1.(scan := Str3), Again)
    else if IsEscapeLetter(c) then Next(s1.(str := s1.str + [Unescape(c.u)], scan := Str1), Again)
    else Next(s1.(scan := LexError), Failed(BadEscape(c)))
  }

  predicate AllHex(code: seq<Unit>)
  {
    |code| == 4 && IsHexDigit(Ch(code[0])) && IsHexDigit(Ch(code[1])) && IsHexDigit(Ch(code[2])) && IsHexDigit(Ch(code[3]))
  }

  /** lex_str3 (doc/taak_src.js:250-270): four hexadecimal digits after \u,
      read only when at least five code units remain. Otherwise, with
      `ended` set, the branch assigns the undeclared `state` in strict mode
      and throws; without it, the state is returned unchanged. */
  function Str3Step(st: Lex): StepResult
  {
    if 0 <= st.current && st.current + 4 < |st.buf| then
      var code := st.buf[st.current..st.current + 4];
      var s1 := st.(current := st.current + 4);
      if AllHex(code) then
        Next(s1.(str := s1.str + [HexUnit(code)], scan := Str1), Again)
      else
        Next(s1.(scan := LexError), Failed(BadUnicode(code)))
    else if st.ended then Threw
    else Next(st, Again)
  }

  /** id1 (doc/taak_src.js:272-283). */
  function Id1Step(st: Lex): StepResult
  {
    match AcceptWhile(st, IsIdChar)
    case None => Hang
    case Some((s1, c)) =>
      if c == Empty then Next(s1, EmptyLexeme)
      else PutBack(s1, false)
  }

  /** One call of the scan function held in `state`. lex_error
      (doc/taak_src.js:110-112) answers with an error every time. */
  function Step(st: Lex): StepResult
  {
    match st.scan
    case Init => InitStep(st)
    case Num1 => Num1Step(st)
    case Num2 => Num2Step(st)
    case Num3 => Num3Step(st)
    case Num4 => Num4Step(st)
    case Num5 => Num5Step(st)
    case Num6 => Num6Step(st)
    case Num7 => Num7Step(st)
    case Str1 => Str1Step(st)
    case Str2 => Str2Step(st)
    case Str3 => Str3Step(st)
    case Id1 => Id1Step(st)
    case LexError => Next(st, Failed(UnknownError))
  }

  /** Skipping leaves every field but current alone, consumes only
      whitespace, and stops after the first other character or at the end of
      the buffer. */
  lemma {:induction false} SkipWhiteSpaceFacts(st: Lex)
    requires Valid(st)
    ensures var (s1, c) := SkipWhiteSpace(st);
      s1 == st.(current := s1.current) && st.current <= s1.current <= |st.buf| &&
      (c.Ch? ==> st.current < s1.current && c.u == st.buf[s1.current - 1] && !IsWhiteSpace(c)) &&
      (!c.Ch? ==> c == Empty && s1.current == |st.buf|) &&
      forall i :: st.current <= i < (if c.Ch? then s1.current - 1 else s1.current) ==> IsWhiteSpace(Ch(st.buf[i]))
    decreases |st.buf| - st.current
  {
    var (s1, c) := NextChar(st);
    if IsWhiteSpace(c) {
      SkipWhiteSpaceFacts(s1);
    }
  }

  /** acceptWhile leaves every field but current alone; it stops on the first
      character that fails pred, and never returns when pred holds of
      everything up to the end of the buffer and of the marker there. */
  lemma {:induction false} AcceptWhileFacts(st: Lex, pred: Symbol -> bool)
    requires Valid(st)
    ensures match AcceptWhile(st, pred)
      case Some((s1, c)) =>
        s1 == st.(current := s1.current) && st.current <= s1.current <= |st.buf| && !pred(c) &&
        (c.Ch? ==> st.current < s1.current && c.u == st.buf[s1.current - 1]) &&
        (!c.Ch? ==> c == Empty && s1.current == |st.buf|) &&
        forall i :: st.current <= i < (if c.Ch? then s1.current - 1 else s1.current) ==> pred(Ch(st.buf[i]))
      case None =>
        pred(Empty) && forall i :: st.current <= i < |st.buf| ==> pred(Ch(st.buf[i]))
    decreases |st.buf| - st.current
  {
    var (s1, c) := NextChar(st);
    if pred(c) && s1.current != st.current {
      AcceptWhileFacts(s1, pred);
    }
  }

  /** acceptWhile returns whenever pred fails on the end-of-buffer marker. */
  lemma AcceptReturns(st: Lex, pred: Symbol -> bool)
    requires Valid(st) && !pred(Empty)
    ensures AcceptWhile(st, pred).Some?
  {
    AcceptWhileFacts(st, pred);
  }

  /** acceptWhile's facts for a call known to return: f is the end of the
      run pred holds on. */
  lemma AcceptedFacts(st: Lex, pred: Symbol -> bool, s1: Lex, c: Symbol) returns (f: int)
    requires Valid(st) && AcceptWhile(st, pred) == Some((s1, c))
    ensures s1 == st.(current := s1.current) && st.current <= s1.current <= |st.buf| && !pred(c)
    ensures c.Ch? ==> st.current < s1.current && c.u == st.buf[s1.current - 1]
    ensures !c.Ch? ==> c == Empty && s1.current == |st.buf|
    ensures f == (if c.Ch? then s1.current - 1 else s1.current) && st.current <= f <= |st.buf|
    ensures forall i :: st.current <= i < f ==> pred(Ch(st.buf[i]))
  {
    AcceptWhileFacts(st, pred);
    f := if c.Ch? then s1.current - 1 else s1.current;
  }

  /** The well-founded order the drive loop descends: fewer characters left
      to read, or as many and back in lex_init. */
  function Rank(s: Scan): nat
  {
    if s == Init then 0 else 1
  }

  predicate Below(s1: Lex, st: Lex)
  {
    |s1.buf| == |st.buf| &&
    (s1.current > st.current || (s1.current == st.current && Rank(s1.scan) < Rank(st.scan)))
  }

  /** What every scan function keeps: the index invariant and the buffer, and
      each lexeme that lets the loop go on (again, or a token) either makes
      progress or, for lex_str3 short of input, leaves the state exactly as
      it was. */
  predicate StepKeeps(st: Lex, r: StepResult)
  {
    r.Next? ==>
      Valid(r.after) && r.after.buf == st.buf &&
      (r.item.Again? || r.item.Emit? ==> Below(r.after, st) || (r.item.Again? && r.after == st))
  }

  lemma InitStepKeeps(st: Lex)
    requires Valid(st) && st.scan == Init
    ensures StepKeeps(st, InitStep(st))
  {
    SkipWhiteSpaceFacts(st);
  }

  lemma NumStepKeeps(st: Lex)
    requires Valid(st) && st.scan in {Num1, Num2, Num3, Num4, Num5, Num6, Num7}
    ensures StepKeeps(st, Step(st))
  {
    AcceptWhileFacts(st, IsDigit);
  }

  lemma StrStepKeeps(st: Lex)
    requires Valid(st) && st.scan in {Str1, Str2, Str3}
    ensures StepKeeps(st, Step(st))
  {
    AcceptWhileFacts(st, IsJsonStringChar);
  }

  lemma IdStepKeeps(st: Lex)
    requires Valid(st) && st.scan == Id1
    ensures StepKeeps(st, Step(st))
  {
    AcceptWhileFacts(st, IsIdChar);
  }

  /** Every scan function keeps the index invariant 0 <= start <= current <= |buf|. */
  lemma StepKeepsValid(st: Lex)
    requires Valid(st)
    ensures StepKeeps(st, Step(st))
  {
    match st.scan
    case Init => InitStepKeeps(st);
    case Id1 => IdStepKeeps(st);
    case Str1 => StrStepKeeps(st);
    case Str2 => StrStepKeeps(st);
    case Str3 => StrStepKeeps(st);
    case LexError =>
    case _ => NumStepKeeps(st);
  }

  /** No scan function throws: lex_str1's EMPTY branch is never reached
      because acceptWhile never returns EMPTY for isJsonStringChar, and
      lex_str3's `ended` branch needs `ended`. */
  lemma StepNeverThrows(st: Lex)
    requires Valid(st)
    ensures !Step(st).Threw?
  {
    if st.scan == Str1 {
      AcceptWhileFacts(st, IsJsonStringChar);
    }
  }

  /** How the drive loop leaves one fragment: on an empty, end or error
      lexeme (none of which is forwarded), or never. */
  datatype Ending = Broke(item: Lexeme) | Hung | Crashed

  /** A token the drive loop forwards, with the lexer state at that moment. */
  datatype Emitted = Emitted(token: Token, after: Lex)

  datatype Drained = Drained(emitted: seq<Emitted>, last: Lex, ending: Ending)

  function TokensOf(emitted: seq<Emitted>): (r: seq<Token>)
    ensures |r| == |emitted| && forall i :: 0 <= i < |r| ==> r[i] == emitted[i].token
  {
    seq(|emitted|, i requires 0 <= i < |emitted| => emitted[i].token)
  }

  /** The `while (true)` loop of the drive loop (doc/taak_src.js:298-307) with
      a consumer that never stops: `again` calls the scan function again, a
      token is forwarded, and empty, end and error break out. A call that
      returns `again` without changing anything repeats forever. */
  function Drain(st: Lex): (r: Drained)
    requires Valid(st)
    ensures Valid(r.last) && |r.last.buf| == |st.buf|
    ensures r.ending.Broke? ==> !r.ending.item.Again? && !r.ending.item.Emit?
    ensures forall i :: 0 <= i < |r.emitted| ==> Valid(r.emitted[i].after)
    decreases |st.buf| - st.current, Rank(st.scan)
  {
    StepKeepsValid(st);
    match Step(st)
    case Hang => Drained([], st, Hung)
    case Threw => Drained([], st, Crashed)
    case Next(s1, item) =>
      if item.Again? then
        if s1 == st then Drained([], st, Hung) else Drain(s1)
      else if item.Emit? then
        var rest := Drain(s1);
        Drained([Emitted(item.token, s1)] + rest.emitted, rest.last, rest.ending)
      else Drained([], s1, Broke(item))
  }

  // One turn of the drive loop, for a step whose result is known.

  lemma DrainAgain(st: Lex, s1: Lex)
    requires Valid(st) && Step(st) == Next(s1, Again) && s1 != st
    ensures Valid(s1) && Drain(st) == Drain(s1)
  {
    StepKeepsValid(st);
  }

  lemma DrainEmit(st: Lex, s1: Lex, t: Token)
    requires Valid(st) && Step(st) == Next(s1, Emit(t))
    ensures Valid(s1)
    ensures Drain(st) == Drained([Emitted(t, s1)] + Drain(s1).emitted, Drain(s1).last, Drain(s1).ending)
  {
    StepKeepsValid(st);
  }

  lemma DrainToken(st: Lex, s1: Lex, t: Token)
    requires Valid(st) && Step(st) == Next(s1, Emit(t))
    ensures Valid(s1) && Drain(st).last == Drain(s1).last && Drain(st).ending == Drain(s1).ending
    ensures TokensOf(Drain(st).emitted) == [t] + TokensOf(Drain(s1).emitted)
  {
    DrainEmit(st, s1, t);
    assert TokensOf(Drain(st).emitted) == TokensOf([Emitted(t, s1)] + Drain(s1).emitted);
  }

  lemma DrainBreak(st: Lex, s1: Lex, item: Lexeme)
    requires Valid(st) && Step(st) == Next(s1, item) && !item.Again? && !item.Emit?
    ensures Drain(st) == Drained([], s1, Broke(item))
  {
  }

  lemma {:induction false} DrainNeverCrashes(st: Lex)
    requires Valid(st)
    ensures !Drain(st).ending.Crashed?
    decreases |st.buf| - st.current, Rank(st.scan)
  {
    StepKeepsValid(st);
    StepNeverThrows(st);
    match Step(st)
    case Hang =>
    case Next(s1, item) =>
      if item.Again? && s1 != st {
        DrainNeverCrashes(s1);
      } else if item.Emit? {
        DrainNeverCrashes(s1);
      }
  }

  /** The head of the fragment callback (doc/taak_src.js:289-295): the
      unconsumed tail from start on is joined to the new fragment and the
      indices are shifted down by start. */
  function Splice(st: Lex, fragment: seq<Unit>): Lex
  {
    var buf := if st.start >= |st.buf| then fragment else JsSlice(st.buf, st.start, |st.buf|) + fragment;
    var current := if st.current - st.start > 0 then st.current - st.start else 0;
    st.(buf := buf, current := current, start := 0)
  }

  /** Splicing keeps the text from start on and the position of current in
      it: the Math.max is never needed. */
  lemma SpliceFacts(st: Lex, fragment: seq<Unit>)
    requires Valid(st)
    ensures var s1 := Splice(st, fragment);
      Valid(s1) && s1.buf == st.buf[st.start..] + fragment && s1.current == st.current - st.start &&
      s1.start == 0 && s1.str == st.str && s1.scan == st.scan
  {
    if st.start >= |st.buf| {
      assert st.buf[st.start..] + fragment == fragment;
    }
  }

  /** The lexer as json_lexer creates it (doc/taak_src.js:25-33); `state` is
      set to lex_init when `each` starts (doc/taak_src.js:70). */
  const INITIAL: Lex := Lex([], 0, 0, [], Init, false)

  /** Lexing a sequence of fragments with a consumer that never stops: the
      tokens forwarded, the lexer state after them, whether the drive loop
      hung on the last fragment pulled, and how many fragments were pulled. */
  datatype Run = Run(tokens: seq<Token>, last: Lex, hung: bool, pulled: nat)

  function LexAll(st: Lex, frags: seq<seq<Unit>>): (r: Run)
    requires Valid(st)
    ensures Valid(r.last) && r.pulled <= |frags|
    ensures !r.hung ==> r.pulled == |frags|
    decreases |frags|
  {
    if frags == [] then Run([], st, false, 0)
    else
      SpliceFacts(st, frags[0]);
      var d := Drain(Splice(st, frags[0]));
      if !d.ending.Broke? then Run(TokensOf(d.emitted), d.last, true, 1)
      else
        var r := LexAll(d.last, frags[1..]);
        Run(TokensOf(d.emitted) + r.tokens, r.last, r.hung, 1 + r.pulled)
  }

  /** Once in lex_error the lexer forwards no token, for any fragments. */
  lemma {:induction false} ErrorAbsorbs(st: Lex, frags: seq<seq<Unit>>)
    requires Valid(st) && st.scan == LexError
    ensures LexAll(st, frags).tokens == [] && !LexAll(st, frags).hung
    ensures LexAll(st, frags).last.scan == LexError
    decreases |frags|
  {
    if frags != [] {
      SpliceFacts(st, frags[0]);
      var s1 := Splice(st, frags[0]);
      assert Drain(s1) == Drained([], s1, Broke(Failed(UnknownError)));
      ErrorAbsorbs(s1, frags[1..]);
    }
  }

  // ----- Token grammar -----

  /** The number scan states as a recogniser: the state lex_numN moves to on
      one more character, None where the code ends the number or fails. */
  function NumberMove(s: Scan, c: Symbol): Option<Scan>
  {
    match s
    case Init => if IsDigit(c) then Some(Num1) else if Is(c, MINUS) then Some(Num2) else if Is(c, DOT) then Some(Num3) else None
    case Num1 => if IsDigit(c) then Some(Num1) else if Is(c, DOT) then Some(Num4) else if IsExponentMark(c) then Some(Num5) else None
    case Num2 => if Is(c, DOT) then Some(Num3) else if IsDigit(c) then Some(Num1) else None
    case Num3 => if IsDigit(c) then Some(Num4) else None
    case Num4 => if IsDigit(c) then Some(Num4) else if IsExponentMark(c) then Some(Num5) else None
    case Num5 => if Is(c, PLUS) || Is(c, MINUS) then Some(Num6) else if IsDigit(c) then Some(Num7) else None
    case Num6 => if IsDigit(c) then Some(Num7) else None
    case Num7 => if IsDigit(c) then Some(Num7) else None
    case _ => None
  }

  /** The state the recogniser reaches on buf[b..e], from lex_init. */
  function NumberRunIn(buf: seq<Unit>, b: int, e: int): Option<Scan>
    requires 0 <= b <= e <= |buf|
    decreases e - b
  {
    if e == b then Some(Init)
    else match NumberRunIn(buf, b, e - 1)
      case None => None
      case Some(s) => NumberMove(s, Ch(buf[e - 1]))
  }

  /** The state the recogniser reaches on a whole text. */
  function NumberRun(t: seq<Unit>): Option<Scan>
  {
    NumberRunIn(t, 0, |t|)
  }

  /** The states in which lex_num1, lex_num4 and lex_num7 can end a number. */
  predicate IsNumberText(t: seq<Unit>)
  {
    NumberRun(t) in {Some(Num1), Some(Num4), Some(Num7)}
  }

  predicate IsNumberScan(s: Scan)
  {
    s in {Num1, Num2, Num3, Num4, Num5, Num6, Num7}
  }

  /** The recogniser sees only the characters it reads: two buffers that
      agree on n characters from b and from b' give the same state. */
  lemma {:induction false} NumberRunSame(x: seq<Unit>, b: int, y: seq<Unit>, b': int, n: int)
    requires 0 <= b && 0 <= b' && 0 <= n && b + n <= |x| && b' + n <= |y|
    requires forall j :: b <= j < b + n ==> x[j] == y[j - b + b']
    ensures NumberRunIn(x, b, b + n) == NumberRunIn(y, b', b' + n)
    decreases n
  {
    if 0 < n {
      var m := n - 1;
      NumberRunSame(x, b, y, b', m);
      assert x[b + m] == y[b' + m];
      assert NumberRunIn(x, b, b + n) == match NumberRunIn(x, b, b + m)
        case None => None case Some(s) => NumberMove(s, Ch(x[b + m]));
      assert NumberRunIn(y, b', b' + n) == match NumberRunIn(y, b', b' + m)
        case None => None case Some(s) => NumberMove(s, Ch(y[b' + m]));
    }
  }

  /** One more character moves the recogniser from the state it was in. */
  lemma NumberRunMove(buf: seq<Unit>, b: int, e: int, s: Scan)
    requires 0 <= b < e <= |buf| && NumberRunIn(buf, b, e - 1) == Some(s)
    ensures NumberRunIn(buf, b, e) == NumberMove(s, Ch(buf[e - 1]))
  {
  }

  /** A run of digits keeps lex_num1, lex_num4 and lex_num7 where they are. */
  lemma {:induction false} NumberRunDigits(buf: seq<Unit>, b: int, e: int, f: int, s: Scan)
    requires 0 <= b <= e <= f <= |buf| && s in {Num1, Num4, Num7}
    requires NumberRunIn(buf, b, e) == Some(s)
    requires forall i :: e <= i < f ==> IsDigit(Ch(buf[i]))
    ensures NumberRunIn(buf, b, f) == Some(s)
    decreases f - e
  {
    if e < f {
      assert NumberRunIn(buf, b, e + 1) == NumberMove(s, Ch(buf[e]));
      NumberRunDigits(buf, b, e + 1, f, s);
    }
  }

  /** What one call of a number scan function does to a lexer whose text
      from start is a prefix the recogniser reaches the current scan state
      on: it extends the prefix, waits for more input at the end of the
      buffer, ends a complete number that the next character cannot extend
      and leaves that character unread, or reports 'Bad number' with the
      bad character consumed and the scan state unchanged. */
  predicate NumberStepOk(st: Lex, r: StepResult)
    requires Valid(st)
  {
    r.Next? && r.after.buf == st.buf && r.after.start == st.start && r.after.str == st.str &&
    st.current <= r.after.current <= |st.buf| &&
    match r.item
    case Again =>
      IsNumberScan(r.after.scan) && NumberRunIn(st.buf, st.start, r.after.current) == Some(r.after.scan)
    case EmptyLexeme =>
      r.after.scan == st.scan && r.after.current == |st.buf| &&
      NumberRunIn(st.buf, st.start, r.after.current) == Some(st.scan)
    case Emit(token) =>
      r.after.scan == Init && r.after.current < |st.buf| &&
      token == NumberToken(st.buf[st.start..r.after.current]) && IsNumberText(token.text) &&
      NumberRunIn(st.buf, st.start, r.after.current + 1) == None
    case Failed(message) =>
      message == BadNumber && r.after == st.(current := st.current + 1) &&
      NumberRunIn(st.buf, st.start, r.after.current) == None
    case EndLexeme => false
  }

  /** Waiting at the end of the buffer in the same state. */
  lemma WaitOk(st: Lex, s1: Lex)
    requires Valid(st) && s1 == st.(current := |st.buf|)
    requires NumberRunIn(st.buf, st.start, |st.buf|) == Some(st.scan)
    ensures NumberStepOk(st, Next(s1, EmptyLexeme))
  {
  }

  /** Moving on to the recogniser's next state. */
  lemma MoveOk(st: Lex, s1: Lex, s: Scan)
    requires Valid(st) && s1 == st.(current := s1.current) && st.current <= s1.current <= |st.buf|
    requires IsNumberScan(s) && NumberRunIn(st.buf, st.start, s1.current) == Some(s)
    ensures NumberStepOk(st, Next(s1.(scan := s), Again))
  {
  }

  /** Ending a complete number before a character that cannot extend it. */
  lemma PutBackOk(st: Lex, s1: Lex)
    requires Valid(st) && s1 == st.(current := s1.current) && st.current < s1.current <= |st.buf|
    requires NumberRunIn(st.buf, st.start, s1.current - 1) in {Some(Num1), Some(Num4), Some(Num7)}
    requires NumberRunIn(st.buf, st.start, s1.current) == None
    ensures NumberStepOk(st, PutBack(s1, true))
  {
    var e := s1.current - 1;
    var text := st.buf[st.start..e];
    assert JsSlice(st.buf, st.start, e) == text;
    NumberRunSame(st.buf, st.start, text, 0, e - st.start);
    assert NumberRun(text) == NumberRunIn(st.buf, st.start, e);
    assert PutBack(s1, true) == Next(s1.(scan := Init, current := e), Emit(NumberToken(text)));
  }

  /** lex_num2, lex_num3, lex_num5 and lex_num6 read one character. */
  lemma NumberSignStep(st: Lex)
    requires Valid(st) && st.scan in {Num2, Num3, Num5, Num6}
    requires NumberRunIn(st.buf, st.start, st.current) == Some(st.scan)
    ensures NumberStepOk(st, Step(st))
  {
    if st.current < |st.buf| {
      NumberRunMove(st.buf, st.start, st.current + 1, st.scan);
    }
    if st.scan == Num2 {
      Num2Sound(st);
    } else if st.scan == Num3 {
      Num3Sound(st);
    } else if st.scan == Num5 {
      Num5Sound(st);
    } else {
      Num6Sound(st);
    }
  }

  lemma Num2Sound(st: Lex)
    requires Valid(st) && st.scan == Num2
    requires NumberRunIn(st.buf, st.start, st.current) == Some(Num2)
    requires st.current < |st.buf| ==> NumberRunIn(st.buf, st.start, st.current + 1) == NumberMove(Num2, Ch(st.buf[st.current]))
    ensures NumberStepOk(st, Num2Step(st))
  {
  }

  lemma Num3Sound(st: Lex)
    requires Valid(st) && st.scan == Num3
    requires NumberRunIn(st.buf, st.start, st.current) == Some(Num3)
    requires st.current < |st.buf| ==> NumberRunIn(st.buf, st.start, st.current + 1) == NumberMove(Num3, Ch(st.buf[st.current]))
    ensures NumberStepOk(st, Num3Step(st))
  {
  }

  lemma Num5Sound(st: Lex)
    requires Valid(st) && st.scan == Num5
    requires NumberRunIn(st.buf, st.start, st.current) == Some(Num5)
    requires st.current < |st.buf| ==> NumberRunIn(st.buf, st.start, st.current + 1) == NumberMove(Num5, Ch(st.buf[st.current]))
    ensures NumberStepOk(st, Num5Step(st))
  {
  }

  lemma Num6Sound(st: Lex)
    requires Valid(st) && st.scan == Num6
    requires NumberRunIn(st.buf, st.start, st.current) == Some(Num6)
    requires st.current < |st.buf| ==> NumberRunIn(st.buf, st.start, st.current + 1) == NumberMove(Num6, Ch(st.buf[st.current]))
    ensures NumberStepOk(st, Num6Step(st))
  {
  }

  /** The run of digits acceptWhile reads keeps the recogniser in the digit
      state. */
  lemma DigitRun(st: Lex, s1: Lex, c: Symbol)
    requires Valid(st) && st.scan in {Num1, Num4, Num7}
    requires NumberRunIn(st.buf, st.start, st.current) == Some(st.scan)
    requires AcceptWhile(st, IsDigit) == Some((s1, c))
    ensures s1 == st.(current := s1.current) && st.current <= s1.current <= |st.buf| && !IsDigit(c)
    ensures c.Ch? ==> st.current < s1.current && c.u == st.buf[s1.current - 1] &&
                      NumberRunIn(st.buf, st.start, s1.current - 1) == Some(st.scan)
    ensures !c.Ch? ==> c == Empty && s1.current == |st.buf| && NumberRunIn(st.buf, st.start, s1.current) == Some(st.scan)
  {
    var f := AcceptedFacts(st, IsDigit, s1, c);
    forall i | st.current <= i < f ensures IsDigit(Ch(st.buf[i])) {
      assert IsDigit.requires(Ch(st.buf[i])) && IsDigit(Ch(st.buf[i]));
    }
    NumberRunDigits(st.buf, st.start, st.current, f, st.scan);
  }

  /** Where lex_num1, lex_num4 and lex_num7 stop reading digits: at the end
      of the buffer, where waiting is sound, or after the character that
      moves the recogniser on. */
  lemma DigitsFrom(st: Lex) returns (s1: Lex, c: Symbol)
    requires Valid(st) && st.scan in {Num1, Num4, Num7}
    requires NumberRunIn(st.buf, st.start, st.current) == Some(st.scan)
    ensures AcceptWhile(st, IsDigit) == Some((s1, c))
    ensures s1 == st.(current := s1.current) && st.current <= s1.current <= |st.buf| && !IsDigit(c)
    ensures c == Empty ==> NumberStepOk(st, Next(s1, EmptyLexeme))
    ensures c != Empty ==> c.Ch? && st.current < s1.current && c.u == st.buf[s1.current - 1] &&
                           NumberRunIn(st.buf, st.start, s1.current - 1) == Some(st.scan) &&
                           NumberRunIn(st.buf, st.start, s1.current) == NumberMove(st.scan, c)
  {
    AcceptReturns(st, IsDigit);
    var r := AcceptWhile(st, IsDigit).value;
    s1, c := r.0, r.1;
    DigitRun(st, s1, c);
    if c == Empty {
      WaitOk(st, s1);
    } else {
      NumberRunMove(st.buf, st.start, s1.current, st.scan);
    }
  }

  lemma Num1Sound(st: Lex)
    requires Valid(st) && st.scan == Num1
    requires NumberRunIn(st.buf, st.start, st.current) == Some(st.scan)
    ensures NumberStepOk(st, Num1Step(st))
  {
    var s1, c := DigitsFrom(st);
    if c == Empty {
      assert Num1Step(st) == Next(s1, EmptyLexeme);
    } else if Is(c, DOT) {
      assert Num1Step(st) == Next(s1.(scan := Num4), Again);
      MoveOk(st, s1, Num4);
    } else if IsExponentMark(c) {
      assert Num1Step(st) == Next(s1.(scan := Num5), Again);
      MoveOk(st, s1, Num5);
    } else {
      assert Num1Step(st) == PutBack(s1, true);
      PutBackOk(st, s1);
    }
  }

  lemma Num4Sound(st: Lex)
    requires Valid(st) && st.scan == Num4
    requires NumberRunIn(st.buf, st.start, st.current) == Some(st.scan)
    ensures NumberStepOk(st, Num4Step(st))
  {
    var s1, c := DigitsFrom(st);
    if c == Empty {
      assert Num4Step(st) == Next(s1, EmptyLexeme);
    } else if IsExponentMark(c) {
      assert Num4Step(st) == Next(s1.(scan := Num5), Again);
      MoveOk(st, s1, Num5);
    } else {
      assert Num4Step(st) == PutBack(s1, true);
      PutBackOk(st, s1);
    }
  }

  lemma Num7Sound(st: Lex)
    requires Valid(st) && st.scan == Num7
    requires NumberRunIn(st.buf, st.start, st.current) == Some(st.scan)
    ensures NumberStepOk(st, Num7Step(st))
  {
    var s1, c := DigitsFrom(st);
    if c == Empty {
      assert Num7Step(st) == Next(s1, EmptyLexeme);
    } else {
      assert Num7Step(st) == PutBack(s1, true);
      PutBackOk(st, s1);
    }
  }

  /** Number scanning is sound against the recogniser (doc/taak_src.js:114-214). */
  lemma NumberStep(st: Lex)
    requires Valid(st) && IsNumberScan(st.scan)
    requires NumberRunIn(st.buf, st.start, st.current) == Some(st.scan)
    ensures NumberStepOk(st, Step(st))
  {
    if st.scan == Num1 {
      Num1Sound(st);
    } else if st.scan == Num4 {
      Num4Sound(st);
    } else if st.scan == Num7 {
      Num7Sound(st);
    } else {
      NumberSignStep(st);
    }
  }

  /** lex_init after the whitespace: start marks the first non-blank
      character, except when it was the last one in the buffer: then start
      is past it. EMPTY at the end of the buffer ends the fragment. */
  lemma InitStepFacts(st: Lex)
    requires Valid(st) && st.scan == Init
    ensures var (s1, c) := SkipWhiteSpace(st); var r := InitStep(st);
      r.Next? && r.after.buf == st.buf && r.after.str == st.str && r.after.current == s1.current &&
      st.current <= s1.current <= |st.buf| &&
      (c == Empty <==> r.item == EmptyLexeme) &&
      (c.Ch? ==> (0 < s1.current && c.u == st.buf[s1.current - 1] &&
        r.after.start == (if Is(c, QUOTE) || s1.current == |st.buf| then s1.current else s1.current - 1)))
  {
    SkipWhiteSpaceFacts(st);
    var (s1, c) := SkipWhiteSpace(st);
    var s2 := s1.(start := if s1.current == |s1.buf| then s1.current else s1.current - 1);
    assert Skip(st) == (s2, c);
    InitAfter(st, s2, c);
  }

  /** What lex_init makes of the state and the character skip returns. */
  lemma InitAfter(st: Lex, s2: Lex, c: Symbol)
    requires Skip(st) == (s2, c) && c != End
    ensures var r := InitStep(st);
      r.Next? && r.after.buf == s2.buf && r.after.str == s2.str && r.after.current == s2.current &&
      (c == Empty <==> r.item == EmptyLexeme) &&
      r.after.start == (if Is(c, QUOTE) then s2.current else s2.start)
  {
  }

  /** lex_init's choice by the first non-blank character: one of the six
      structural characters is a token at once; a digit, '-', '.', a quote or
      an identifier start enters the matching scan state; anything else
      enters lex_error. */
  lemma InitClassifies(st: Lex)
    requires Valid(st) && st.scan == Init
    ensures var (s1, c) := SkipWhiteSpace(st); var r := InitStep(st);
      r.Next? && (c.Ch? ==>
        (IsStructural(c) <==> r.item == Emit(Punct(c.u))) &&
        (IsDigit(c) <==> r.after.scan == Num1) &&
        (Is(c, MINUS) <==> r.after.scan == Num2) &&
        (Is(c, DOT) <==> r.after.scan == Num3) &&
        (Is(c, QUOTE) <==> r.after.scan == Str1) &&
        (IsIdStartChar(c) <==> r.after.scan == Id1) &&
        ((!IsStructural(c) && !IsDigit(c) && !IsIdStartChar(c) && !(c.u in {QUOTE, MINUS, DOT})) <==>
          r.after.scan == LexError))
  {
    SkipWhiteSpaceFacts(st);
  }

  /** A number whose first character is not the last in the buffer starts
      the recogniser correctly. */
  lemma InitStartsNumber(st: Lex)
    requires Valid(st) && st.scan == Init
    requires InitStep(st).Next? && IsNumberScan(InitStep(st).after.scan)
    requires InitStep(st).after.current < |st.buf|
    ensures var s2 := InitStep(st).after;
      0 < s2.current <= |s2.buf| && s2.start == s2.current - 1 &&
      NumberRunIn(s2.buf, s2.start, s2.current) == Some(s2.scan)
  {
    InitStepFacts(st);
    InitClassifies(st);
    SkipWhiteSpaceFacts(st);
    var s2 := InitStep(st).after;
    var c := SkipWhiteSpace(st).1;
    assert c.Ch? && !Is(c, QUOTE);
    assert s2.current > 0 && s2.start == s2.current - 1;
  }

  /** The skip quirk: a token whose first character is the last in the buffer
      gets start past it, so the text later sliced from start lacks it. */
  lemma SkipQuirk(st: Lex)
    requires Valid(st) && st.scan == Init
    requires InitStep(st).Next? && InitStep(st).after.current == |st.buf|
    ensures InitStep(st).after.start == |st.buf|
  {
    InitStepFacts(st);
  }

  predicate IsIdText(t: seq<Unit>)
  {
    |t| > 0 && IsIdStartChar(Ch(t[0])) && forall i :: 1 <= i < |t| ==> IsIdChar(Ch(t[i]))
  }

  /** id1 (doc/taak_src.js:272-283): the identifier is the identifier start
      character and the longest run of identifier characters after it; the
      character after the run is left unread. */
  lemma IdStep(st: Lex)
    requires Valid(st) && st.scan == Id1 && st.start < st.current
    requires IsIdText(st.buf[st.start..st.current])
    ensures match Step(st)
      case Next(s1, item) =>
        s1.buf == st.buf && s1.start == st.start && st.current <= s1.current <= |st.buf| &&
        (item == EmptyLexeme || item.Emit?) &&
        (item == EmptyLexeme ==> s1.scan == Id1 && s1.current == |st.buf| && IsIdText(st.buf[st.start..s1.current])) &&
        (item.Emit? ==> (s1.scan == Init && s1.current < |st.buf| &&
          item.token == IdToken(st.buf[st.start..s1.current]) && IsIdText(item.token.text) &&
          !IsIdChar(Ch(st.buf[s1.current]))))
      case _ => false
  {
    AcceptReturns(st, IsIdChar);
    var (s1, c) := AcceptWhile(st, IsIdChar).value;
    var e := AcceptedFacts(st, IsIdChar, s1, c);
    var t := st.buf[st.start..e];
    forall i | 1 <= i < |t| ensures IsIdChar(Ch(t[i])) {
      if st.start + i >= st.current {
        assert t[i] == st.buf[st.start + i];
        assert IsIdChar.requires(Ch(t[i])) && IsIdChar(Ch(t[i]));
      } else {
        assert t[i] == st.buf[st.start..st.current][i];
      }
    }
    assert IsIdText(t);
    assert Step(st) == Id1Step(st);
    if c == Empty {
      assert Id1Step(st) == Next(s1, EmptyLexeme);
    } else {
      assert JsSlice(st.buf, st.start, e) == t;
      assert Id1Step(st) == Next(s1.(scan := Init, current := e), Emit(IdToken(t)));
    }
  }

  /** lex_str1 (doc/taak_src.js:216-233): the run of plain string characters
      from current is appended to the accumulator; a quote ends the string
      and forwards the accumulated text, a backslash starts an escape, and
      any other character (a control character) is skipped. When the run
      reaches the end of the buffer, acceptWhile loops forever. */
  lemma Str1Sound(st: Lex)
    requires Valid(st) && st.scan == Str1
    ensures Step(st).Hang? <==> forall i :: st.current <= i < |st.buf| ==> IsJsonStringChar(Ch(st.buf[i]))
    ensures Step(st).Next? ==> exists e :: st.current <= e < |st.buf| && Str1Ends(st, e, Step(st))
  {
    AcceptWhileFacts(st, IsJsonStringChar);
    assert Step(st) == Str1Step(st);
    var r := AcceptWhile(st, IsJsonStringChar);
    if r.Some? {
      var s1, c := r.value.0, r.value.1;
      var e := s1.current - 1;
      assert !IsJsonStringChar(Ch(st.buf[e]));
      assert JsSlice(st.buf, st.current, e) == st.buf[st.current..e];
      if st.current == e {
        assert st.str + st.buf[st.current..e] == st.str;
      }
      assert Str1Ends(st, e, Step(st));
    }
  }

  /** How a call of lex_str1 ends on the first character at index e that
      is not a plain string character. */
  predicate Str1Ends(st: Lex, e: int, r: StepResult)
    requires Valid(st) && st.current <= e < |st.buf|
  {
    var run := st.buf[st.current..e];
    var c := st.buf[e];
    (forall i :: st.current <= i < e ==> IsJsonStringChar(Ch(st.buf[i]))) &&
    !IsJsonStringChar(Ch(c)) &&
    r.Next? && r.after.buf == st.buf && r.after.start == st.start && r.after.current == e + 1 &&
    if c == QUOTE then
      r.after.str == [] && r.after.scan == Init && r.item == Emit(StringToken(st.str + run))
    else
      r.after.str == st.str + run && r.item == Again &&
      r.after.scan == (if c == BACKSLASH then Str2 else Str1)
  }

  /** lex_str2 (doc/taak_src.js:235-248): after a backslash, 'u' starts a
      unicode escape, one of " \ / b f n r t appends the character it stands
      for, and anything else, EMPTY included, is a 'Bad escape character'
      error that enters lex_error. */
  lemma Str2Sound(st: Lex)
    requires Valid(st) && st.scan == Str2
    ensures var (s1, c) := NextChar(st);
      Step(st).Next? && Step(st).after.buf == st.buf && Step(st).after.current == s1.current &&
      if Is(c, LOWER_U) then Step(st) == Next(s1.(scan := Str3), Again)
      else if IsEscapeLetter(c) then Step(st) == Next(s1.(str := st.str + [Unescape(c.u)], scan := Str1), Again)
      else Step(st) == Next(s1.(scan := LexError), Failed(BadEscape(c)))
  {
  }

  /** lex_str3 (doc/taak_src.js:250-270): with five code units left, four
      hexadecimal digits append the one code unit they spell and anything
      else is a 'Bad unicode escape' error; with fewer, the state is returned
      unchanged. */
  lemma Str3Sound(st: Lex)
    requires Valid(st) && st.scan == Str3
    ensures st.current + 4 < |st.buf| ==>
      var code := st.buf[st.current..st.current + 4];
      Step(st) == if AllHex(code) then Next(st.(current := st.current + 4, str := st.str + [HexUnit(code)], scan := Str1), Again)
                  else Next(st.(current := st.current + 4, scan := LexError), Failed(BadUnicode(code)))
    ensures st.current + 4 >= |st.buf| ==> Step(st) == Next(st, Again)
  {
  }

  // The round trip of string literals, one code unit of the text at a time.

  /** The drive loop, from st, forwards one string token holding text, and
      goes on from lex_init at end, just past the closing quote. */
  predicate ForwardsString(st: Lex, text: seq<Unit>, end: int)
    requires Valid(st) && st.current < end <= |st.buf|
  {
    var after := st.(current := end, str := [], scan := Init);
    Drain(st) == Drained([Emitted(StringToken(text), after)] + Drain(after).emitted, Drain(after).last, Drain(after).ending)
  }

  /** A closing quote forwards the accumulated text and returns to lex_init. */
  lemma ClosingQuoteRead(st: Lex)
    requires Valid(st) && st.scan == Str1 && st.current < |st.buf| && st.buf[st.current] == QUOTE
    ensures ForwardsString(st, st.str, st.current + 1)
  {
    var after := st.(current := st.current + 1, str := [], scan := Init);
    assert Step(st) == Next(after, Emit(StringToken(st.str)));
    DrainEmit(st, after, StringToken(st.str));
  }

  /** What lex_str1 returns when its run ends at index e. */
  function Str1Result(st: Lex, e: int): StepResult
    requires 0 <= st.current <= e < |st.buf|
  {
    var run := st.buf[st.current..e];
    if st.buf[e] == QUOTE then Next(st.(current := e + 1, str := [], scan := Init), Emit(StringToken(st.str + run)))
    else Next(st.(current := e + 1, str := st.str + run, scan := if st.buf[e] == BACKSLASH then Str2 else Str1), Again)
  }

  /** The run lex_str1 reads ends at e, the first character at or after
      current that is not a plain string character. */
  lemma Str1Run(st: Lex, q: int) returns (e: int)
    requires Valid(st) && st.scan == Str1 && st.current <= q < |st.buf| && !IsJsonStringChar(Ch(st.buf[q]))
    ensures st.current <= e <= q && !IsJsonStringChar(Ch(st.buf[e]))
    ensures forall i :: st.current <= i < e ==> IsJsonStringChar(Ch(st.buf[i]))
    ensures Step(st) == Str1Result(st, e)
  {
    Str1Sound(st);
    StepNeverThrows(st);
    StepKeepsValid(st);
    e :| st.current <= e < |st.buf| && Str1Ends(st, e, Step(st));
  }

  /** A plain string character read by lex_str1 ends up in the accumulator:
      the step from it is the step from the state that has already read it,
      as long as some later character ends the run. */
  lemma PlainUnitStep(st: Lex, q: int)
    requires Valid(st) && st.scan == Str1 && st.current < q < |st.buf|
    requires IsJsonStringChar(Ch(st.buf[st.current])) && !IsJsonStringChar(Ch(st.buf[q]))
    ensures var s2 := st.(current := st.current + 1, str := st.str + [st.buf[st.current]]);
      Step(st) == Step(s2) && Step(st).Next? && Step(st).after.current > s2.current
  {
    var s2 := st.(current := st.current + 1, str := st.str + [st.buf[st.current]]);
    var e1 := Str1Run(st, q);
    var e2 := Str1Run(s2, q);
    assert e1 != st.current;
    assert e1 == e2;
    Str1ResultShift(st, e1);
  }

  /** The run from a plain character at current, once that character is
      moved to the accumulator, ends in the same result. */
  lemma Str1ResultShift(st: Lex, e: int)
    requires 0 <= st.current < e < |st.buf|
    ensures Str1Result(st, e) == Str1Result(st.(current := st.current + 1, str := st.str + [st.buf[st.current]]), e)
  {
    assert st.buf[st.current..e] == [st.buf[st.current]] + st.buf[st.current + 1..e];
    AppendAssoc(st.str, [st.buf[st.current]], st.buf[st.current + 1..e]);
  }

  lemma PlainUnitRead(st: Lex, q: int)
    requires Valid(st) && st.scan == Str1 && st.current < q < |st.buf|
    requires IsJsonStringChar(Ch(st.buf[st.current])) && !IsJsonStringChar(Ch(st.buf[q]))
    ensures var s2 := st.(current := st.current + 1, str := st.str + [st.buf[st.current]]);
      Valid(s2) && Drain(st) == Drain(s2)
  {
    PlainUnitStep(st, q);
  }

  /** A backslash and an escape letter other than 'u', read from lex_str1,
      append the unit the letter stands for. */
  lemma EscapeLetterRead(st: Lex, c: Unit)
    requires Valid(st) && st.scan == Str1 && st.current + 2 <= |st.buf| && IsEscapeLetter(Ch(c)) && c != LOWER_U
    requires st.buf[st.current] == BACKSLASH && st.buf[st.current + 1] == c
    ensures var s2 := st.(current := st.current + 2, str := st.str + [Unescape(c)]);
      Valid(s2) && Drain(st) == Drain(s2)
  {
    var s1 := st.(current := st.current + 1, scan := Str2);
    assert Step(st) == Next(s1, Again);
    DrainAgain(st, s1);
    var s2 := st.(current := st.current + 2, str := st.str + [Unescape(c)]);
    assert Step(s1) == Next(s2, Again);
    DrainAgain(s1, s2);
  }

  /** A short escape read from lex_str1 appends the unit it stands for. */
  lemma ShortEscapeRead(st: Lex, u: Unit)
    requires Valid(st) && st.scan == Str1 && !IsJsonStringChar(Ch(u)) && HasShortEscape(u)
    requires st.current + |EscapeUnit(u)| <= |st.buf| && st.buf[st.current..st.current + |EscapeUnit(u)|] == EscapeUnit(u)
    ensures var s2 := st.(current := st.current + |EscapeUnit(u)|, str := st.str + [u]);
      Valid(s2) && Drain(st) == Drain(s2)
  {
    ShortEscapeForm(u);
    var e := EscapeUnit(u);
    assert st.buf[st.current] == e[0] && st.buf[st.current + 1] == e[1];
    EscapeLetterRead(st, e[1]);
  }

  /** A \u escape read from lex_str1, with a character after it, appends
      the unit its four digits spell. */
  lemma UnicodeEscapeRead(st: Lex, u: Unit)
    requires Valid(st) && st.scan == Str1 && !IsJsonStringChar(Ch(u)) && !HasShortEscape(u)
    requires st.current + |EscapeUnit(u)| < |st.buf| && st.buf[st.current..st.current + |EscapeUnit(u)|] == EscapeUnit(u)
    ensures var s2 := st.(current := st.current + |EscapeUnit(u)|, str := st.str + [u]);
      Valid(s2) && Drain(st) == Drain(s2)
  {
    var code := HexDigits(u, 4);
    HexRoundTrip(u);
    assert EscapeUnit(u) == [BACKSLASH, LOWER_U] + code;
    assert st.buf[st.current] == BACKSLASH && st.buf[st.current + 1] == LOWER_U;
    var s1 := st.(current := st.current + 1, scan := Str2);
    assert Step(st) == Next(s1, Again);
    DrainAgain(st, s1);
    var s3 := st.(current := st.current + 2, scan := Str3);
    assert Step(s1) == Next(s3, Again);
    DrainAgain(s1, s3);
    assert st.buf[s3.current..s3.current + 4] == code;
    var s2 := st.(current := st.current + 6, str := st.str + [u]);
    Str3Sound(s3);
    DrainAgain(s3, s2);
  }

  /** One escaped code unit read from lex_str1, with a quote still to come,
      appends that unit to the accumulator. */
  lemma EscapedUnitRead(st: Lex, u: Unit, q: int)
    requires Valid(st) && st.scan == Str1 && st.current + |EscapeUnit(u)| <= q < |st.buf| && st.buf[q] == QUOTE
    requires st.buf[st.current..st.current + |EscapeUnit(u)|] == EscapeUnit(u)
    ensures var s2 := st.(current := st.current + |EscapeUnit(u)|, str := st.str + [u]);
      Valid(s2) && Drain(st) == Drain(s2)
  {
    if IsJsonStringChar(Ch(u)) {
      assert st.buf[st.current] == EscapeUnit(u)[0];
      PlainUnitRead(st, q);
    } else if HasShortEscape(u) {
      ShortEscapeRead(st, u);
    } else {
      UnicodeEscapeRead(st, u);
    }
  }

  /** Two states that drain alike and differ only in current and the
      accumulator forward the same string. */
  lemma ForwardsStringFrom(st: Lex, s2: Lex, text: seq<Unit>, end: int)
    requires Valid(st) && Valid(s2) && s2 == st.(current := s2.current, str := s2.str) && st.current <= s2.current < end <= |st.buf|
    requires Drain(st) == Drain(s2) && ForwardsString(s2, text, end)
    ensures ForwardsString(st, text, end)
  {
    assert st.(current := end, str := [], scan := Init) == s2.(current := end, str := [], scan := Init);
  }

  /** lex_str1 is at the escape of u, and the closing quote is at end - 1. */
  predicate EscapedUnitAt(st: Lex, u: Unit, end: int)
  {
    Valid(st) && st.scan == Str1 && st.current + |EscapeUnit(u)| < end <= |st.buf| && st.buf[end - 1] == QUOTE &&
    st.buf[st.current..st.current + |EscapeUnit(u)|] == EscapeUnit(u)
  }

  /** One escaped unit read from lex_str1 before a string that is
      forwarded from the state s2 after it: the same string is forwarded. */
  lemma EscapedUnitForwards(st: Lex, s2: Lex, u: Unit, text: seq<Unit>, end: int)
    ensures EscapedUnitAt(st, u, end) && s2 == st.(current := st.current + |EscapeUnit(u)|, str := st.str + [u]) ==>
      Valid(s2) && s2.current < end <= |s2.buf| && (ForwardsString(s2, text, end) ==> ForwardsString(st, text, end))
  {
    if EscapedUnitAt(st, u, end) && s2 == st.(current := st.current + |EscapeUnit(u)|, str := st.str + [u]) {
      EscapedUnitRead(st, u, end - 1);
      if ForwardsString(s2, text, end) {
        ForwardsStringFrom(st, s2, text, end);
      }
    }
  }

  /** lex_str1 is at the escape of t, followed by the closing quote at
      end - 1; text is the accumulator followed by t. */
  predicate EscapedStringAt(st: Lex, t: seq<Unit>, text: seq<Unit>, end: int)
  {
    Valid(st) && st.scan == Str1 && end == st.current + |Escaped(t)| + 1 && end <= |st.buf| &&
    st.buf[st.current..end - 1] == Escaped(t) && st.buf[end - 1] == QUOTE && text == st.str + t
  }

  /** Reading the escape of the first unit of t leaves the escape of the rest. */
  lemma EscapedStringNext(st: Lex, t: seq<Unit>, text: seq<Unit>, end: int)
    requires t != [] && EscapedStringAt(st, t, text, end)
    ensures EscapedUnitAt(st, t[0], end)
    ensures EscapedStringAt(st.(current := st.current + |EscapeUnit(t[0])|, str := st.str + [t[0]]), t[1..], text, end)
  {
    EscapedCons(t);
    SliceSplit(st.buf, st.current, |Escaped(t)|, EscapeUnit(t[0]), Escaped(t[1..]));
    MoveFirst(st.str, t);
  }

  /** The round trip of string literals: from inside a string, the escaped
      form of any text t followed by a closing quote is forwarded as one
      string token, the text read before it followed by t, and the lexer
      goes on from lex_init just past the quote. */
  lemma {:induction false} EscapedStringLexes(st: Lex, t: seq<Unit>, text: seq<Unit>, end: int)
    requires EscapedStringAt(st, t, text, end)
    ensures ForwardsString(st, text, end)
    decreases |t|
  {
    if t == [] {
      assert text == st.str + t == st.str;
      ClosingQuoteRead(st);
    } else {
      var s2 := st.(current := st.current + |EscapeUnit(t[0])|, str := st.str + [t[0]]);
      EscapedStringNext(st, t, text, end);
      EscapedStringLexes(s2, t[1..], text, end);
      EscapedUnitForwards(st, s2, t[0], text, end);
    }
  }

  /** A string cut by the end of the fragment never returns: the drive loop
      hangs in acceptWhile, having forwarded nothing more. */
  lemma StringCutHangs(st: Lex)
    requires Valid(st) && st.scan == Str1
    requires forall i :: st.current <= i < |st.buf| ==> IsJsonStringChar(Ch(st.buf[i]))
    ensures Drain(st) == Drained([], st, Hung)
  {
    Str1Sound(st);
  }

  /** A unicode escape with fewer than five code units left hangs the drive
      loop: lex_str3 returns `again` forever. */
  lemma UnicodeEscapeCutHangs(st: Lex)
    requires Valid(st) && st.scan == Str3 && st.current + 4 >= |st.buf|
    ensures Drain(st) == Drained([], st, Hung)
  {
    Str3Sound(st);
  }
}
