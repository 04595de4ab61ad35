/** The JSON parser of proto_fromjson.each (doc/taak_src.js:312-429, the same
    code at doc/zen.js:1588-1705): a stack machine over the lexer's tokens
    whose states are the functions S0, arr1, obj1, obj2, obj3 and error. */
module JsonParser {
  import opened Base
  import opened JsonLexer

  /** The values the parser builds. Numbers keep their lexed text; an object
      is its key-to-value map (a later key overwrites an earlier one). */
  datatype JsonValue =
    | JNull
    | JBool(b: bool)
    | JNumber(text: seq<Unit>)
    | JString(s: seq<Unit>)
    | JArray(items: seq<JsonValue>)
    | JObject(fields: map<seq<Unit>, JsonValue>)

  /** An entry of `stack`: an array or object being filled, or the pending
      key of an object member. */
  datatype Frame = ArrayFrame(items: seq<JsonValue>) | ObjectFrame(fields: map<seq<Unit>, JsonValue>) | KeyFrame(key: seq<Unit>)

  /** The function held in `state`. */
  datatype Phase = S0 | Arr1 | Obj1 | Obj2 | Obj3 | Error

  datatype Parser = Parser(stack: seq<Frame>, phase: Phase)

  const START: Parser := Parser([], S0)

  /** The shape of the stack: a key sits right above the object it belongs
      to, and an object below the top has its pending key above it. Put
      pairwise: the bottom frame is not a key, and of two adjacent frames the
      upper is a key exactly when the lower is an object. */
  predicate StackShape(stack: seq<Frame>)
  {
    (stack != [] ==> !stack[0].KeyFrame?) &&
    forall i, j :: 0 <= i < |stack| && 0 <= j < |stack| && j == i + 1 ==> (stack[j].KeyFrame? <==> stack[i].ObjectFrame?)
  }

  /** What each state expects on top of the stack. */
  predicate Inv(p: Parser)
  {
    var s := p.stack;
    match p.phase
    case S0 => StackShape(s) && (s == [] || !s[|s| - 1].ObjectFrame?)
    case Arr1 => StackShape(s) && s != [] && s[|s| - 1].ArrayFrame?
    case Obj1 => StackShape(s) && s != [] && s[|s| - 1].ObjectFrame?
    case Obj2 => StackShape(s) && s != [] && s[|s| - 1].KeyFrame?
    case Obj3 => StackShape(s) && s != [] && s[|s| - 1].ObjectFrame?
    case Error => true
  }

  /** The value a popped frame is: a key frame is the key string itself. */
  function FrameValue(f: Frame): JsonValue
  {
    match f
    case ArrayFrame(items) => JArray(items)
    case ObjectFrame(fields) => JObject(fields)
    case KeyFrame(key) => JString(key)
  }

  /** resolve (doc/taak_src.js:407-428): with an empty stack the value is the
      result; under a key it is stored in the object below, which the key
      is popped off to reach; on top of an array it is pushed. On top of an
      object (which no parse reaches) the value is dropped. */
  function Resolve(stack: seq<Frame>, value: JsonValue): (r: (Parser, Option<JsonValue>))
    requires StackShape(stack)
  {
    if stack == [] then (Parser([], S0), Some(value))
    else
      var top := stack[|stack| - 1];
      match top
      case KeyFrame(key) =>
        var below := stack[|stack| - 2];
        (Parser(stack[..|stack| - 2] + [ObjectFrame(below.fields[key := value])], Obj3), None)
      case ArrayFrame(items) =>
        (Parser(stack[..|stack| - 1] + [ArrayFrame(items + [value])], Arr1), None)
      case ObjectFrame(_) =>
        (Parser(stack, Arr1), None)
  }

  /** A stack minus its top keeps its shape. */
  lemma PopShape(stack: seq<Frame>)
    requires StackShape(stack) && stack != []
    ensures StackShape(stack[..|stack| - 1])
  {
    var s' := stack[..|stack| - 1];
    forall i, j | 0 <= i < j < |s'| && j == i + 1 ensures s'[j].KeyFrame? <==> s'[i].ObjectFrame? {
      assert s'[i] == stack[i] && s'[j] == stack[j];
    }
  }

  /** Replacing a top that is not a key by a frame that is not a key keeps
      the stack's shape. */
  lemma ReplaceTop(stack: seq<Frame>, f: Frame)
    requires StackShape(stack) && stack != [] && !stack[|stack| - 1].KeyFrame? && !f.KeyFrame?
    ensures StackShape(stack[..|stack| - 1] + [f])
  {
    var n := |stack|;
    var s' := stack[..n - 1] + [f];
    forall i, j | 0 <= i < j < |s'| && j == i + 1 ensures s'[j].KeyFrame? <==> s'[i].ObjectFrame? {
      assert s'[i] == stack[i];
      if j < n - 1 {
        assert s'[j] == stack[j];
      } else {
        assert stack[j] == stack[n - 1];
      }
    }
    if n > 1 {
      assert s'[0] == stack[0];
    }
  }

  /** The identifiers S0 accepts, in UTF-16 code units: "true", "false"
      and "null". */
  const TRUE_WORD: seq<Unit> := [116, 114, 117, 101]
  const FALSE_WORD: seq<Unit> := [102, 97, 108, 115, 101]
  const NULL_WORD: seq<Unit> := [110, 117, 108, 108]

  /** The value S0 makes of a scalar token; None for anything else. */
  function ScalarValue(tok: Token): Option<JsonValue>
  {
    match tok
    case StringToken(text) => Some(JString(text))
    case NumberToken(text) => Some(JNumber(text))
    case IdToken(text) =>
      if text == TRUE_WORD then Some(JBool(true))
      else if text == FALSE_WORD then Some(JBool(false))
      else if text == NULL_WORD then Some(JNull)
      else None
    case Punct(_) => None
  }

  /** S0 (doc/taak_src.js:325-367): the start of a value. '{' and '[' push
      an empty container; ']' closes an array right after '[' or a trailing
      comma; a scalar is resolved; any other token, an unknown identifier,
      or ']' without an array on top, is an error. */
  function S0Step(p: Parser, tok: Token): (r: (Parser, Option<JsonValue>))
    requires Inv(p) && p.phase == S0
  {
    var s := p.stack;
    if tok == Punct(LBRACE) then (Parser(s + [ObjectFrame(map[])], Obj1), None)
    else if tok == Punct(LBRACKET) then (Parser(s + [ArrayFrame([])], S0), None)
    else if tok == Punct(RBRACKET) then
      if s == [] then (Parser(s, Error), None)
      else if s[|s| - 1].ArrayFrame? then Resolve(s[..|s| - 1], JArray(s[|s| - 1].items))
      else (Parser(s[..|s| - 1], Error), None)
    else match ScalarValue(tok)
      case Some(v) => Resolve(s, v)
      case None => (Parser(s, Error), None)
  }

  /** `resolve(stack.pop())` in arr1, obj1 and obj3. */
  function PopResolve(s: seq<Frame>): (r: (Parser, Option<JsonValue>))
    requires StackShape(s) && s != [] && !s[|s| - 1].KeyFrame?
  {
    PopShape(s);
    Resolve(s[..|s| - 1], FrameValue(s[|s| - 1]))
  }

  /** One call of the callback symbols.each is given (doc/taak_src.js:317-322):
      the current state function on the token, and the value it returns. */
  function ParseStep(p: Parser, tok: Token): (r: (Parser, Option<JsonValue>))
    requires Inv(p)
  {
    match p.phase
    case S0 => S0Step(p, tok)
    case Arr1 =>
      // arr1 (doc/taak_src.js:369-375): unexpected tokens are ignored.
      if tok == Punct(COMMA) then (p.(phase := S0), None)
      else if tok == Punct(RBRACKET) then PopResolve(p.stack)
      else (p, None)
    case Obj1 =>
      // obj1 (doc/taak_src.js:377-386): a key, or '}' right after '{' or a trailing comma.
      if tok.StringToken? then (Parser(p.stack + [KeyFrame(tok.text)], Obj2), None)
      else if tok == Punct(RBRACE) then PopResolve(p.stack)
      else (p.(phase := Error), None)
    case Obj2 =>
      // obj2 (doc/taak_src.js:388-394).
      if tok == Punct(COLON) then (p.(phase := S0), None) else (p.(phase := Error), None)
    case Obj3 =>
      // obj3 (doc/taak_src.js:396-402): unexpected tokens are ignored.
      if tok == Punct(COMMA) then (p.(phase := Obj1), None)
      else if tok == Punct(RBRACE) then PopResolve(p.stack)
      else (p, None)
    case Error => (p, None)
  }

  /** resolve leaves the parser in a state whose invariant holds. */
  lemma ResolveInv(stack: seq<Frame>, value: JsonValue)
    requires StackShape(stack) && (stack == [] || !stack[|stack| - 1].ObjectFrame?)
    ensures Inv(Resolve(stack, value).0)
    ensures Resolve(stack, value).1.Some? <==> stack == []
  {
    if stack != [] && stack[|stack| - 1].KeyFrame? {
      var n := |stack|;
      var below := stack[n - 2];
      var popped := stack[..n - 1];
      PopShape(stack);
      ReplaceTop(popped, ObjectFrame(below.fields[stack[n - 1].key := value]));
      assert popped[..n - 2] == stack[..n - 2];
    } else if stack != [] {
      ReplaceTop(stack, ArrayFrame(stack[|stack| - 1].items + [value]));
    }
  }

  /** A popped container leaves a stack resolve can work on. */
  lemma PopResolveInv(s: seq<Frame>)
    requires StackShape(s) && s != [] && !s[|s| - 1].KeyFrame?
    ensures Inv(PopResolve(s).0)
  {
    PopShape(s);
    ResolveInv(s[..|s| - 1], FrameValue(s[|s| - 1]));
  }

  /** Every step keeps the parser invariant. */
  lemma ParseStepInv(p: Parser, tok: Token)
    requires Inv(p)
    ensures Inv(ParseStep(p, tok).0)
  {
    var s := p.stack;
    match p.phase
    case S0 =>
      if tok == Punct(LBRACE) || tok == Punct(LBRACKET) {
        PushShape(s, if tok == Punct(LBRACE) then ObjectFrame(map[]) else ArrayFrame([]));
      } else if tok == Punct(RBRACKET) {
        if s != [] && s[|s| - 1].ArrayFrame? {
          PopResolveInv(s);
        }
      } else {
        ResolveInv(s, if ScalarValue(tok).Some? then ScalarValue(tok).value else JNull);
      }
    case Arr1 =>
      if tok == Punct(RBRACKET) { PopResolveInv(s); }
    case Obj1 =>
      if tok.StringToken? {
        PushKey(s, tok.text);
      } else if tok == Punct(RBRACE) {
        PopResolveInv(s);
      }
    case Obj2 =>
    case Obj3 =>
      if tok == Punct(RBRACE) { PopResolveInv(s); }
    case Error =>
  }

  /** The values one step hands on: the callback passes a value to f only
      when the state function returned one. */
  function Out(v: Option<JsonValue>): seq<JsonValue>
  {
    if v.Some? then [v.value] else []
  }

  datatype Parsed = Parsed(parser: Parser, values: seq<JsonValue>)

  /** The parser run over a token sequence: its final state and the values
      it handed on, in order. */
  function ParseTokens(p: Parser, toks: seq<Token>): (r: Parsed)
    requires Inv(p)
    ensures Inv(r.parser)
    decreases |toks|
  {
    if toks == [] then Parsed(p, [])
    else
      ParseStepInv(p, toks[0]);
      var (p1, v) := ParseStep(p, toks[0]);
      var rest := ParseTokens(p1, toks[1..]);
      Parsed(rest.parser, Out(v) + rest.values)
  }

  /** Parsing two token sequences one after the other is parsing their
      concatenation. */
  lemma {:induction false} ParseTokensAppend(p: Parser, a: seq<Token>, b: seq<Token>)
    requires Inv(p)
    ensures var first := ParseTokens(p, a);
            var second := ParseTokens(first.parser, b);
            ParseTokens(p, a + b) == Parsed(second.parser, first.values + second.values)
    decreases |a|
  {
    if a != [] {
      ParseStepInv(p, a[0]);
      var (p1, v) := ParseStep(p, a[0]);
      var ab := a + b;
      assert ab[0] == a[0] && ab[1..] == a[1..] + b;
      ParseTokensAppend(p1, a[1..], b);
      var first := ParseTokens(p1, a[1..]);
      var second := ParseTokens(first.parser, b);
      assert ParseTokens(p, a) == Parsed(first.parser, Out(v) + first.values);
      assert ParseTokens(p, ab) == Parsed(second.parser, Out(v) + (first.values + second.values));
      AppendAssoc(Out(v), first.values, second.values);
    } else {
      assert a + b == b;
    }
  }

  /** The error state swallows every later token. */
  lemma {:induction false} ErrorAbsorbs(stack: seq<Frame>, toks: seq<Token>)
    ensures ParseTokens(Parser(stack, Error), toks) == Parsed(Parser(stack, Error), [])
    decreases |toks|
  {
    if toks != [] {
      ErrorAbsorbs(stack, toks[1..]);
    }
  }

  /** After an array element, and after an object member, every token other
      than a comma or the closing bracket is skipped without an error. */
  lemma IgnoredAfterElement(p: Parser, tok: Token)
    requires Inv(p)
    requires (p.phase == Arr1 && tok != Punct(COMMA) && tok != Punct(RBRACKET)) ||
             (p.phase == Obj3 && tok != Punct(COMMA) && tok != Punct(RBRACE))
    ensures ParseStep(p, tok) == (p, None)
  {
  }

  /** The tokens that send the parser to its error state: a ']' with no
      array open, an unknown identifier, a value that cannot start a value,
      an object member that does not start with a string, a key without a
      colon. */
  lemma ErrorTransitions(p: Parser, tok: Token)
    requires Inv(p)
    ensures p.phase == S0 && tok == Punct(RBRACKET) && p.stack == [] ==> ParseStep(p, tok) == (Parser([], Error), None)
    ensures p.phase == S0 && tok == Punct(RBRACKET) && p.stack != [] && !p.stack[|p.stack| - 1].ArrayFrame? ==>
              ParseStep(p, tok) == (Parser(p.stack[..|p.stack| - 1], Error), None)
    ensures p.phase == S0 && tok.IdToken? && tok.text !in {TRUE_WORD, FALSE_WORD, NULL_WORD} ==> ParseStep(p, tok) == (p.(phase := Error), None)
    ensures p.phase == S0 && tok.Punct? && tok.mark !in {LBRACE, LBRACKET, RBRACKET} ==> ParseStep(p, tok) == (p.(phase := Error), None)
    ensures p.phase == Obj1 && !tok.StringToken? && tok != Punct(RBRACE) ==> ParseStep(p, tok) == (p.(phase := Error), None)
    ensures p.phase == Obj2 && tok != Punct(COLON) ==> ParseStep(p, tok) == (p.(phase := Error), None)
  {
  }

  /** The JSON texts the lexer can deliver as tokens: a value is a literal,
      a number or string token, or an array or object of values. */
  datatype Doc =
    | DNull
    | DTrue
    | DFalse
    | DNumber(text: seq<Unit>)
    | DString(text: seq<Unit>)
    | DArray(items: seq<Doc>)
    | DObject(members: seq<Member>)
  datatype Member = Member(key: seq<Unit>, value: Doc)

  /** The token sequence of a text, without trailing commas. */
  function Tokens(d: Doc): seq<Token>
    decreases d, 1
  {
    match d
    case DNull => [IdToken(NULL_WORD)]
    case DTrue => [IdToken(TRUE_WORD)]
    case DFalse => [IdToken(FALSE_WORD)]
    case DNumber(text) => [NumberToken(text)]
    case DString(text) => [StringToken(text)]
    case DArray(items) => [Punct(LBRACKET)] + ItemTokens(items) + [Punct(RBRACKET)]
    case DObject(members) => [Punct(LBRACE)] + MemberTokens(members) + [Punct(RBRACE)]
  }

  function ItemTokens(items: seq<Doc>): seq<Token>
    decreases items, 0
  {
    if items == [] then []
    else Tokens(items[0]) + (if |items| == 1 then [] else [Punct(COMMA)] + ItemTokens(items[1..]))
  }

  function MemberTokens(members: seq<Member>): seq<Token>
    decreases members, 0
  {
    if members == [] then []
    else
      [StringToken(members[0].key), Punct(COLON)] + Tokens(members[0].value) +
      (if |members| == 1 then [] else [Punct(COMMA)] + MemberTokens(members[1..]))
  }

  /** The value a text denotes: members are entered left to right, so the
      last of two equal keys wins. */
  function Value(d: Doc): JsonValue
    decreases d, 1
  {
    match d
    case DNull => JNull
    case DTrue => JBool(true)
    case DFalse => JBool(false)
    case DNumber(text) => JNumber(text)
    case DString(text) => JString(text)
    case DArray(items) => JArray(ItemValues(items))
    case DObject(members) => JObject(MemberFields(map[], members))
  }

  function ItemValues(items: seq<Doc>): seq<JsonValue>
    decreases items, 0
  {
    if items == [] then [] else [Value(items[0])] + ItemValues(items[1..])
  }

  function MemberFields(fields: map<seq<Unit>, JsonValue>, members: seq<Member>): map<seq<Unit>, JsonValue>
    decreases members, 0
  {
    if members == [] then fields
    else MemberFields(fields[members[0].key := Value(members[0].value)], members[1..])
  }

  /** Pushing an array or object onto a stack whose top is not an object
      keeps the stack's shape. */
  lemma PushShape(s: seq<Frame>, f: Frame)
    requires StackShape(s) && (s == [] || !s[|s| - 1].ObjectFrame?) && !f.KeyFrame?
    ensures StackShape(s + [f])
  {
    var s' := s + [f];
    forall i, j | 0 <= i < j < |s'| && j == i + 1 ensures s'[j].KeyFrame? <==> s'[i].ObjectFrame? {
      assert s'[i] == s[i];
      if j < |s| {
        assert s'[j] == s[j];
      }
    }
    if s != [] {
      assert s'[0] == s[0];
    }
  }

  /** Pushing a key onto an object keeps the stack's shape. */
  lemma PushKey(s: seq<Frame>, key: seq<Unit>)
    requires StackShape(s) && s != [] && s[|s| - 1].ObjectFrame?
    ensures StackShape(s + [KeyFrame(key)])
  {
    var s' := s + [KeyFrame(key)];
    forall i, j | 0 <= i < j < |s'| && j == i + 1 ensures s'[j].KeyFrame? <==> s'[i].ObjectFrame? {
      assert s'[i] == s[i];
      if j < |s| {
        assert s'[j] == s[j];
      }
    }
    assert s'[0] == s[0];
  }

  /** Pushing an object and one of its keys keeps the stack's shape. */
  lemma KeyShape(s: seq<Frame>, fields: map<seq<Unit>, JsonValue>, key: seq<Unit>)
    requires StackShape(s) && (s == [] || !s[|s| - 1].ObjectFrame?)
    ensures StackShape(s + [ObjectFrame(fields), KeyFrame(key)])
  {
    PushShape(s, ObjectFrame(fields));
    PushKey(s + [ObjectFrame(fields)], key);
    assert s + [ObjectFrame(fields)] + [KeyFrame(key)] == s + [ObjectFrame(fields), KeyFrame(key)];
  }

  /** Parsing a single token is one step. */
  lemma ParseOne(p: Parser, tok: Token)
    requires Inv(p)
    ensures ParseTokens(p, [tok]) == Parsed(ParseStep(p, tok).0, Out(ParseStep(p, tok).1))
  {
    assert [tok][1..] == [];
  }

  /** The round trip: the tokens of a text, parsed from the start of a value
      with any stack below, resolve exactly the value the text denotes. With
      an empty stack that value is handed on, and nothing else is. */
  lemma {:induction false} ParseDoc(s: seq<Frame>, d: Doc)
    requires Inv(Parser(s, S0))
    ensures ParseTokens(Parser(s, S0), Tokens(d)) == Parsed(Resolve(s, Value(d)).0, Out(Resolve(s, Value(d)).1))
    decreases d, 30
  {
    match d
    case DArray(items) => ParseArray(s, items);
    case DObject(members) => ParseObject(s, members);
    case _ => ParseScalar(s, d);
  }

  /** A literal, number or string is one token, resolved at once. */
  lemma ParseScalar(s: seq<Frame>, d: Doc)
    requires Inv(Parser(s, S0)) && !d.DArray? && !d.DObject?
    ensures ParseTokens(Parser(s, S0), Tokens(d)) == Parsed(Resolve(s, Value(d)).0, Out(Resolve(s, Value(d)).1))
  {
    var tok := Tokens(d)[0];
    assert Tokens(d) == [tok];
    assert ScalarValue(tok) == Some(Value(d));
    assert ParseStep(Parser(s, S0), tok) == Resolve(s, Value(d));
    ParseOne(Parser(s, S0), tok);
  }

  lemma {:induction false} ParseArray(s: seq<Frame>, items: seq<Doc>)
    requires Inv(Parser(s, S0))
    ensures ParseTokens(Parser(s, S0), Tokens(DArray(items))) ==
            Parsed(Resolve(s, JArray(ItemValues(items))).0, Out(Resolve(s, JArray(ItemValues(items))).1))
    decreases items, 20
  {
    var p := Parser(s, S0);
    PushShape(s, ArrayFrame([]));
    var start := Parser(s + [ArrayFrame([])], S0);
    var r := Parsed(Resolve(s, JArray(ItemValues(items))).0, Out(Resolve(s, JArray(ItemValues(items))).1));
    assert Tokens(DArray(items)) == [Punct(LBRACKET)] + (ItemTokens(items) + [Punct(RBRACKET)]);
    assert ParseStep(p, Punct(LBRACKET)) == (start, None);
    ArrayBody(s, items);
    Prepend(p, Punct(LBRACKET), start, ItemTokens(items) + [Punct(RBRACKET)], r);
  }

  /** The elements and the closing bracket of an array just opened. */
  lemma {:induction false} ArrayBody(s: seq<Frame>, items: seq<Doc>)
    requires StackShape(s) && (s == [] || !s[|s| - 1].ObjectFrame?)
    ensures StackShape(s + [ArrayFrame([])])
    ensures ParseTokens(Parser(s + [ArrayFrame([])], S0), ItemTokens(items) + [Punct(RBRACKET)]) ==
            Parsed(Resolve(s, JArray(ItemValues(items))).0, Out(Resolve(s, JArray(ItemValues(items))).1))
    decreases items, 15
  {
    PushShape(s, ArrayFrame([]));
    var start := Parser(s + [ArrayFrame([])], S0);
    if items == [] {
      assert ItemTokens(items) + [Punct(RBRACKET)] == [Punct(RBRACKET)];
      ParseOne(start, Punct(RBRACKET));
      assert (s + [ArrayFrame([])])[..|s|] == s;
    } else {
      ParseItems(s, [], items);
      ParseTokensAppend(start, ItemTokens(items), [Punct(RBRACKET)]);
      var full := s + [ArrayFrame(ItemValues(items))];
      ParseOne(Parser(full, Arr1), Punct(RBRACKET));
      assert full[..|s|] == s;
      assert [] + ItemValues(items) == ItemValues(items);
    }
  }

  lemma {:induction false} ParseObject(s: seq<Frame>, members: seq<Member>)
    requires Inv(Parser(s, S0))
    ensures ParseTokens(Parser(s, S0), Tokens(DObject(members))) ==
            Parsed(Resolve(s, JObject(MemberFields(map[], members))).0, Out(Resolve(s, JObject(MemberFields(map[], members))).1))
    decreases members, 20
  {
    var p := Parser(s, S0);
    PushShape(s, ObjectFrame(map[]));
    var start := Parser(s + [ObjectFrame(map[])], Obj1);
    var r := Parsed(Resolve(s, JObject(MemberFields(map[], members))).0, Out(Resolve(s, JObject(MemberFields(map[], members))).1));
    assert Tokens(DObject(members)) == [Punct(LBRACE)] + (MemberTokens(members) + [Punct(RBRACE)]);
    assert ParseStep(p, Punct(LBRACE)) == (start, None);
    ObjectBody(s, members);
    Prepend(p, Punct(LBRACE), start, MemberTokens(members) + [Punct(RBRACE)], r);
  }

  /** The members and the closing brace of an object just opened. */
  lemma {:induction false} ObjectBody(s: seq<Frame>, members: seq<Member>)
    requires StackShape(s) && (s == [] || !s[|s| - 1].ObjectFrame?)
    ensures StackShape(s + [ObjectFrame(map[])])
    ensures ParseTokens(Parser(s + [ObjectFrame(map[])], Obj1), MemberTokens(members) + [Punct(RBRACE)]) ==
            Parsed(Resolve(s, JObject(MemberFields(map[], members))).0, Out(Resolve(s, JObject(MemberFields(map[], members))).1))
    decreases members, 15
  {
    PushShape(s, ObjectFrame(map[]));
    var start := Parser(s + [ObjectFrame(map[])], Obj1);
    if members == [] {
      assert MemberTokens(members) + [Punct(RBRACE)] == [Punct(RBRACE)];
      ParseOne(start, Punct(RBRACE));
      assert (s + [ObjectFrame(map[])])[..|s|] == s;
    } else {
      ParseMembers(s, map[], members);
      ParseTokensAppend(start, MemberTokens(members), [Punct(RBRACE)]);
      var full := s + [ObjectFrame(MemberFields(map[], members))];
      ParseOne(Parser(full, Obj3), Punct(RBRACE));
      assert full[..|s|] == s;
    }
  }

  /** A value resolved on top of an array is appended to it. */
  lemma ResolveIntoArray(s: seq<Frame>, acc: seq<JsonValue>, v: JsonValue)
    requires StackShape(s + [ArrayFrame(acc)])
    ensures Resolve(s + [ArrayFrame(acc)], v) == (Parser(s + [ArrayFrame(acc + [v])], Arr1), None)
  {
    assert (s + [ArrayFrame(acc)])[..|s|] == s;
  }

  /** A value resolved under a key is entered into the object below it. */
  lemma ResolveIntoObject(s: seq<Frame>, fields: map<seq<Unit>, JsonValue>, key: seq<Unit>, v: JsonValue)
    requires StackShape(s + [ObjectFrame(fields), KeyFrame(key)])
    ensures Resolve(s + [ObjectFrame(fields), KeyFrame(key)], v) == (Parser(s + [ObjectFrame(fields[key := v])], Obj3), None)
  {
    var st := s + [ObjectFrame(fields), KeyFrame(key)];
    assert st[..|st| - 2] == s && st[|st| - 2] == ObjectFrame(fields);
  }

  /** Two parses one after the other, the first handing on nothing. */
  lemma Chain(p: Parser, a: seq<Token>, q: Parser, b: seq<Token>, r: Parsed)
    requires Inv(p) && ParseTokens(p, a) == Parsed(q, []) && ParseTokens(q, b) == r
    ensures ParseTokens(p, a + b) == r
  {
    ParseTokensAppend(p, a, b);
    assert [] + r.values == r.values;
  }

  /** An array element, parsed in place, is appended to the array. */
  lemma {:induction false} ParseElement(s: seq<Frame>, acc: seq<JsonValue>, d: Doc)
    requires StackShape(s) && (s == [] || !s[|s| - 1].ObjectFrame?)
    ensures ParseTokens(Parser(s + [ArrayFrame(acc)], S0), Tokens(d)) ==
            Parsed(Parser(s + [ArrayFrame(acc + [Value(d)])], Arr1), [])
    decreases d, 40
  {
    PushShape(s, ArrayFrame(acc));
    ParseDoc(s + [ArrayFrame(acc)], d);
    ResolveIntoArray(s, acc, Value(d));
  }

  /** The elements of a non-empty array, separated by commas, fill the array
      on top of the stack in order. */
  lemma {:induction false} ParseItems(s: seq<Frame>, acc: seq<JsonValue>, items: seq<Doc>)
    requires StackShape(s) && (s == [] || !s[|s| - 1].ObjectFrame?) && items != []
    ensures ParseTokens(Parser(s + [ArrayFrame(acc)], S0), ItemTokens(items)) ==
            Parsed(Parser(s + [ArrayFrame(acc + ItemValues(items))], Arr1), [])
    decreases items, 10
  {
    if |items| == 1 {
      ParseElement(s, acc, items[0]);
      assert ItemTokens(items) == Tokens(items[0]);
      assert ItemValues(items) == [Value(items[0])];
    } else {
      ParseMoreItems(s, acc, items);
    }
  }

  lemma {:induction false} ParseMoreItems(s: seq<Frame>, acc: seq<JsonValue>, items: seq<Doc>)
    requires StackShape(s) && (s == [] || !s[|s| - 1].ObjectFrame?) && |items| > 1
    ensures ParseTokens(Parser(s + [ArrayFrame(acc)], S0), ItemTokens(items)) ==
            Parsed(Parser(s + [ArrayFrame(acc + ItemValues(items))], Arr1), [])
    decreases items, 0
  {
    var v := Value(items[0]);
    var st := Parser(s + [ArrayFrame(acc)], S0);
    var next := Parser(s + [ArrayFrame(acc + [v])], S0);
    var first, rest := Tokens(items[0]) + [Punct(COMMA)], ItemTokens(items[1..]);
    ElementComma(s, acc, items[0]);
    ParseItems(s, acc + [v], items[1..]);
    ItemsSplit(acc, items);
    var last := ParseTokens(next, rest);
    Chain(st, first, next, rest, last);
  }

  /** An array's tokens and values split after the first element. */
  lemma ItemsSplit(acc: seq<JsonValue>, items: seq<Doc>)
    requires |items| > 1
    ensures ItemTokens(items) == (Tokens(items[0]) + [Punct(COMMA)]) + ItemTokens(items[1..])
    ensures acc + ItemValues(items) == (acc + [Value(items[0])]) + ItemValues(items[1..])
  {
    var t, r := Tokens(items[0]), ItemTokens(items[1..]);
    assert ItemTokens(items) == t + ([Punct(COMMA)] + r);
    AppendAssoc(t, [Punct(COMMA)], r);
    var v, w := Value(items[0]), ItemValues(items[1..]);
    assert ItemValues(items) == [v] + w;
    AppendAssoc(acc, [v], w);
  }

  /** An element and the comma after it: the parser waits for the next one. */
  lemma {:induction false} ElementComma(s: seq<Frame>, acc: seq<JsonValue>, d: Doc)
    requires StackShape(s) && (s == [] || !s[|s| - 1].ObjectFrame?)
    ensures StackShape(s + [ArrayFrame(acc)]) && StackShape(s + [ArrayFrame(acc + [Value(d)])])
    ensures ParseTokens(Parser(s + [ArrayFrame(acc)], S0), Tokens(d) + [Punct(COMMA)]) ==
            Parsed(Parser(s + [ArrayFrame(acc + [Value(d)])], S0), [])
    decreases d, 50
  {
    var mid := Parser(s + [ArrayFrame(acc + [Value(d)])], Arr1);
    ParseElement(s, acc, d);
    PushShape(s, ArrayFrame(acc));
    PushShape(s, ArrayFrame(acc + [Value(d)]));
    ParseOne(mid, Punct(COMMA));
    Chain(Parser(s + [ArrayFrame(acc)], S0), Tokens(d), mid, [Punct(COMMA)], ParseTokens(mid, [Punct(COMMA)]));
  }

  /** A key, a colon and a value enter the member into the object on top. */
  lemma {:induction false} ParseMember(s: seq<Frame>, fields: map<seq<Unit>, JsonValue>, m: Member)
    requires StackShape(s) && (s == [] || !s[|s| - 1].ObjectFrame?)
    ensures ParseTokens(Parser(s + [ObjectFrame(fields)], Obj1), [StringToken(m.key), Punct(COLON)] + Tokens(m.value)) ==
            Parsed(Parser(s + [ObjectFrame(fields[m.key := Value(m.value)])], Obj3), [])
    decreases m, 40
  {
    var key, t := m.key, Tokens(m.value);
    KeyShape(s, fields, key);
    PushShape(s, ObjectFrame(fields));
    var p := Parser(s + [ObjectFrame(fields)], Obj1);
    var st := s + [ObjectFrame(fields), KeyFrame(key)];
    var mid := Parser(s + [ObjectFrame(fields[key := Value(m.value)])], Obj3);
    assert p.stack + [KeyFrame(key)] == st;
    ParseOne(p, StringToken(key));
    MemberValue(s, fields, key, m.value);
    Chain(p, [StringToken(key)], Parser(st, Obj2), [Punct(COLON)] + t, Parsed(mid, []));
    AppendAssoc([StringToken(key)], [Punct(COLON)], t);
    assert [StringToken(key)] + [Punct(COLON)] == [StringToken(key), Punct(COLON)];
  }

  /** The colon and the value after a key: the value is entered under it. */
  lemma {:induction false} MemberValue(s: seq<Frame>, fields: map<seq<Unit>, JsonValue>, key: seq<Unit>, d: Doc)
    requires StackShape(s) && (s == [] || !s[|s| - 1].ObjectFrame?)
    ensures StackShape(s + [ObjectFrame(fields), KeyFrame(key)])
    ensures ParseTokens(Parser(s + [ObjectFrame(fields), KeyFrame(key)], Obj2), [Punct(COLON)] + Tokens(d)) ==
            Parsed(Parser(s + [ObjectFrame(fields[key := Value(d)])], Obj3), [])
    decreases d, 35
  {
    KeyShape(s, fields, key);
    var st := s + [ObjectFrame(fields), KeyFrame(key)];
    var mid := Parser(s + [ObjectFrame(fields[key := Value(d)])], Obj3);
    ParseOne(Parser(st, Obj2), Punct(COLON));
    ParseDoc(st, d);
    ResolveIntoObject(s, fields, key, Value(d));
    Chain(Parser(st, Obj2), [Punct(COLON)], Parser(st, S0), Tokens(d), Parsed(mid, []));
  }

  /** The members of a non-empty object, separated by commas, are entered in
      order into the object on top of the stack. */
  lemma {:induction false} ParseMembers(s: seq<Frame>, fields: map<seq<Unit>, JsonValue>, members: seq<Member>)
    requires StackShape(s) && (s == [] || !s[|s| - 1].ObjectFrame?) && members != []
    ensures ParseTokens(Parser(s + [ObjectFrame(fields)], Obj1), MemberTokens(members)) ==
            Parsed(Parser(s + [ObjectFrame(MemberFields(fields, members))], Obj3), [])
    decreases members, 10
  {
    var m := members[0];
    var fields' := fields[m.key := Value(m.value)];
    var head := [StringToken(m.key), Punct(COLON)] + Tokens(m.value);
    ParseMember(s, fields, m);
    assert MemberFields(fields, members) == MemberFields(fields', members[1..]);
    if |members| == 1 {
      assert MemberTokens(members) == head;
    } else {
      var p := Parser(s + [ObjectFrame(fields)], Obj1);
      var next := Parser(s + [ObjectFrame(fields')], Obj1);
      var first, rest := head + [Punct(COMMA)], MemberTokens(members[1..]);
      MemberComma(s, fields, m);
      ParseMembers(s, fields', members[1..]);
      MembersSplit(members);
      var last := ParseTokens(next, rest);
      Chain(p, first, next, rest, last);
    }
  }

  /** An object's tokens split after the first member. */
  lemma MembersSplit(members: seq<Member>)
    requires |members| > 1
    ensures MemberTokens(members) ==
            ([StringToken(members[0].key), Punct(COLON)] + Tokens(members[0].value) + [Punct(COMMA)]) + MemberTokens(members[1..])
  {
    var head, r := [StringToken(members[0].key), Punct(COLON)] + Tokens(members[0].value), MemberTokens(members[1..]);
    assert MemberTokens(members) == head + ([Punct(COMMA)] + r);
    AppendAssoc(head, [Punct(COMMA)], r);
  }

  /** A member and the comma after it: the parser waits for the next key. */
  lemma {:induction false} MemberComma(s: seq<Frame>, fields: map<seq<Unit>, JsonValue>, m: Member)
    requires StackShape(s) && (s == [] || !s[|s| - 1].ObjectFrame?)
    ensures StackShape(s + [ObjectFrame(fields)]) && StackShape(s + [ObjectFrame(fields[m.key := Value(m.value)])])
    ensures ParseTokens(Parser(s + [ObjectFrame(fields)], Obj1), [StringToken(m.key), Punct(COLON)] + Tokens(m.value) + [Punct(COMMA)]) ==
            Parsed(Parser(s + [ObjectFrame(fields[m.key := Value(m.value)])], Obj1), [])
    decreases m, 50
  {
    var fields' := fields[m.key := Value(m.value)];
    var mid := Parser(s + [ObjectFrame(fields')], Obj3);
    ParseMember(s, fields, m);
    PushShape(s, ObjectFrame(fields));
    PushShape(s, ObjectFrame(fields'));
    ParseOne(mid, Punct(COMMA));
    Chain(Parser(s + [ObjectFrame(fields)], Obj1), [StringToken(m.key), Punct(COLON)] + Tokens(m.value), mid, [Punct(COMMA)], ParseTokens(mid, [Punct(COMMA)]));
  }

  /** At the top level every text is handed on as soon as it is complete,
      and the parser is back at its start. */
  lemma TopLevel(d: Doc)
    ensures ParseTokens(START, Tokens(d)) == Parsed(START, [Value(d)])
  {
    ParseDoc([], d);
  }

  /** A container is handed on only by its closing token: the tokens before
      it hand on nothing. */
  lemma NothingBeforeClose(d: Doc)
    requires d.DArray? || d.DObject?
    ensures |Tokens(d)| >= 2
    ensures ParseTokens(START, Tokens(d)[..|Tokens(d)| - 1]).values == []
  {
    var toks := Tokens(d);
    if d.DArray? {
      var front := [Punct(LBRACKET)] + ItemTokens(d.items);
      assert toks == front + [Punct(RBRACKET)];
      assert toks[..|toks| - 1] == front;
      ArrayOpenPart(d.items);
    } else {
      var front := [Punct(LBRACE)] + MemberTokens(d.members);
      assert toks == front + [Punct(RBRACE)];
      assert toks[..|toks| - 1] == front;
      ObjectOpenPart(d.members);
    }
  }

  /** An array without its closing bracket hands on nothing. */
  lemma ArrayOpenPart(items: seq<Doc>)
    ensures ParseTokens(START, [Punct(LBRACKET)] + ItemTokens(items)).values == []
  {
    var inner := ItemTokens(items);
    var start := Parser([ArrayFrame([])], S0);
    ParseOne(START, Punct(LBRACKET));
    PushShape([], ArrayFrame([]));
    assert [] + [ArrayFrame([])] == [ArrayFrame([])];
    if items != [] {
      ParseItems([], [], items);
    } else {
      assert inner == [];
    }
    Chain(START, [Punct(LBRACKET)], start, inner, ParseTokens(start, inner));
  }

  /** An object without its closing brace hands on nothing. */
  lemma ObjectOpenPart(members: seq<Member>)
    ensures ParseTokens(START, [Punct(LBRACE)] + MemberTokens(members)).values == []
  {
    var inner := MemberTokens(members);
    var start := Parser([ObjectFrame(map[])], Obj1);
    ParseOne(START, Punct(LBRACE));
    PushShape([], ObjectFrame(map[]));
    assert [] + [ObjectFrame(map[])] == [ObjectFrame(map[])];
    if members != [] {
      ParseMembers([], map[], members);
    } else {
      assert inner == [];
    }
    Chain(START, [Punct(LBRACE)], start, inner, ParseTokens(start, inner));
  }

  function DocsTokens(ds: seq<Doc>): seq<Token>
  {
    if ds == [] then [] else Tokens(ds[0]) + DocsTokens(ds[1..])
  }

  function DocsValues(ds: seq<Doc>): seq<JsonValue>
  {
    if ds == [] then [] else [Value(ds[0])] + DocsValues(ds[1..])
  }

  /** Texts one after the other are handed on one value each, in order. */
  lemma {:induction false} TopLevelSequence(ds: seq<Doc>)
    ensures ParseTokens(START, DocsTokens(ds)) == Parsed(START, DocsValues(ds))
  {
    if ds != [] {
      TopLevel(ds[0]);
      TopLevelSequence(ds[1..]);
      ParseTokensAppend(START, Tokens(ds[0]), DocsTokens(ds[1..]));
    }
  }

  /** A step that hands on nothing, followed by the rest of the tokens. */
  lemma Prepend(p: Parser, tok: Token, q: Parser, rest: seq<Token>, r: Parsed)
    requires Inv(p) && Inv(q) && ParseStep(p, tok) == (q, None) && ParseTokens(q, rest) == r
    ensures ParseTokens(p, [tok] + rest) == r
  {
    ParseOne(p, tok);
    Chain(p, [tok], q, rest, r);
  }

  /** A trailing comma is accepted in arrays and objects: `[1,]` is `[1]` and
      `{"a":1,}` is `{"a":1}`, whatever the number and the key. */
  lemma TrailingCommas(a: seq<Unit>, k: seq<Unit>)
    ensures ParseTokens(START, [Punct(LBRACKET), NumberToken(a), Punct(COMMA), Punct(RBRACKET)]) ==
            Parsed(START, [JArray([JNumber(a)])])
    ensures ParseTokens(START, [Punct(LBRACE), StringToken(k), Punct(COLON), NumberToken(a), Punct(COMMA), Punct(RBRACE)]) ==
            Parsed(START, [JObject(map[k := JNumber(a)])])
  {
    TrailingCommaInArray(a);
    TrailingCommaInObject(k, a);
  }

  lemma TrailingCommaInArray(a: seq<Unit>)
    ensures ParseTokens(START, [Punct(LBRACKET), NumberToken(a), Punct(COMMA), Punct(RBRACKET)]) ==
            Parsed(START, [JArray([JNumber(a)])])
  {
    var empty := Parser([ArrayFrame([])], S0);
    var r := Parsed(START, [JArray([JNumber(a)])]);
    TrailingCommaTail(a);
    assert START.stack + [ArrayFrame([])] == empty.stack;
    Prepend(START, Punct(LBRACKET), empty, [NumberToken(a), Punct(COMMA), Punct(RBRACKET)], r);
  }

  /** `1,]` inside an array just opened. */
  lemma TrailingCommaTail(a: seq<Unit>)
    ensures ParseTokens(Parser([ArrayFrame([])], S0), [NumberToken(a), Punct(COMMA), Punct(RBRACKET)]) ==
            Parsed(START, [JArray([JNumber(a)])])
  {
    var one := JNumber(a);
    var empty := Parser([ArrayFrame([])], S0);
    var arr := Parser([ArrayFrame([one])], Arr1);
    var r := Parsed(START, [JArray([one])]);
    CommaClose(a);
    ResolveIntoArray([], [], one);
    assert [] + [ArrayFrame([])] == [ArrayFrame([])] && [] + [one] == [one] && [] + [ArrayFrame([one])] == [ArrayFrame([one])];
    Prepend(empty, NumberToken(a), arr, [Punct(COMMA), Punct(RBRACKET)], r);
  }

  /** `,]` after the element of `[1`: the comma expects another value, and
      the bracket closes the array instead. */
  lemma CommaClose(a: seq<Unit>)
    ensures Inv(Parser([ArrayFrame([JNumber(a)])], Arr1))
    ensures ParseTokens(Parser([ArrayFrame([JNumber(a)])], Arr1), [Punct(COMMA), Punct(RBRACKET)]) ==
            Parsed(START, [JArray([JNumber(a)])])
  {
    var arr := Parser([ArrayFrame([JNumber(a)])], S0);
    var r := Parsed(START, [JArray([JNumber(a)])]);
    ParseOne(arr, Punct(RBRACKET));
    Prepend(arr.(phase := Arr1), Punct(COMMA), arr, [Punct(RBRACKET)], r);
  }

  lemma TrailingCommaInObject(k: seq<Unit>, a: seq<Unit>)
    ensures ParseTokens(START, [Punct(LBRACE), StringToken(k), Punct(COLON), NumberToken(a), Punct(COMMA), Punct(RBRACE)]) ==
            Parsed(START, [JObject(map[k := JNumber(a)])])
  {
    var empty := Parser([ObjectFrame(map[])], Obj1);
    var r := Parsed(START, [JObject(map[k := JNumber(a)])]);
    ObjectKeyTail(k, a);
    assert START.stack + [ObjectFrame(map[])] == empty.stack;
    Prepend(START, Punct(LBRACE), empty, [StringToken(k), Punct(COLON), NumberToken(a), Punct(COMMA), Punct(RBRACE)], r);
  }

  /** `"a":1,}` inside an object just opened. */
  lemma ObjectKeyTail(k: seq<Unit>, a: seq<Unit>)
    ensures ParseTokens(Parser([ObjectFrame(map[])], Obj1), [StringToken(k), Punct(COLON), NumberToken(a), Punct(COMMA), Punct(RBRACE)]) ==
            Parsed(START, [JObject(map[k := JNumber(a)])])
  {
    var empty := Parser([ObjectFrame(map[])], Obj1);
    var r := Parsed(START, [JObject(map[k := JNumber(a)])]);
    var key := [ObjectFrame(map[]), KeyFrame(k)];
    ObjectColonTail(k, a);
    assert empty.stack + [KeyFrame(k)] == key;
    Prepend(empty, StringToken(k), Parser(key, Obj2), [Punct(COLON), NumberToken(a), Punct(COMMA), Punct(RBRACE)], r);
  }

  /** `:1,}` after the key of `{"a"`. */
  lemma ObjectColonTail(k: seq<Unit>, a: seq<Unit>)
    ensures Inv(Parser([ObjectFrame(map[]), KeyFrame(k)], Obj2))
    ensures ParseTokens(Parser([ObjectFrame(map[]), KeyFrame(k)], Obj2), [Punct(COLON), NumberToken(a), Punct(COMMA), Punct(RBRACE)]) ==
            Parsed(START, [JObject(map[k := JNumber(a)])])
  {
    var r := Parsed(START, [JObject(map[k := JNumber(a)])]);
    var key := [ObjectFrame(map[]), KeyFrame(k)];
    KeyShape([], map[], k);
    assert [] + key == key;
    ObjectMemberTail(k, a);
    Prepend(Parser(key, Obj2), Punct(COLON), Parser(key, S0), [NumberToken(a), Punct(COMMA), Punct(RBRACE)], r);
  }

  /** The value, trailing comma and brace of `{"a":1,}`. */
  lemma ObjectMemberTail(k: seq<Unit>, a: seq<Unit>)
    ensures StackShape([ObjectFrame(map[]), KeyFrame(k)])
    ensures ParseTokens(Parser([ObjectFrame(map[]), KeyFrame(k)], S0), [NumberToken(a), Punct(COMMA), Punct(RBRACE)]) ==
            Parsed(START, [JObject(map[k := JNumber(a)])])
  {
    var one := JNumber(a);
    var obj := Parser([ObjectFrame(map[k := one])], Obj3);
    var r := Parsed(START, [JObject(map[k := one])]);
    var key := [ObjectFrame(map[]), KeyFrame(k)];
    KeyShape([], map[], k);
    assert [] + key == key;
    ObjectCommaClose(k, a);
    ResolveIntoObject([], map[], k, one);
    assert [] + [ObjectFrame(map[k := one])] == [ObjectFrame(map[k := one])];
    Prepend(Parser(key, S0), NumberToken(a), obj, [Punct(COMMA), Punct(RBRACE)], r);
  }

  /** `,}` after the member of `{"a":1`. */
  lemma ObjectCommaClose(k: seq<Unit>, a: seq<Unit>)
    ensures Inv(Parser([ObjectFrame(map[k := JNumber(a)])], Obj3))
    ensures ParseTokens(Parser([ObjectFrame(map[k := JNumber(a)])], Obj3), [Punct(COMMA), Punct(RBRACE)]) ==
            Parsed(START, [JObject(map[k := JNumber(a)])])
  {
    var obj := Parser([ObjectFrame(map[k := JNumber(a)])], Obj1);
    var r := Parsed(START, [JObject(map[k := JNumber(a)])]);
    ParseOne(obj, Punct(RBRACE));
    Prepend(obj.(phase := Obj3), Punct(COMMA), obj, [Punct(RBRACE)], r);
  }

  /** Missing commas go unnoticed: in `[1 2]` the 2 is skipped, whatever the
      two numbers. */
  lemma MissingCommaIgnored(a: seq<Unit>, b: seq<Unit>)
    ensures ParseTokens(START, [Punct(LBRACKET), NumberToken(a), NumberToken(b), Punct(RBRACKET)]) ==
            Parsed(START, [JArray([JNumber(a)])])
  {
    var empty := Parser([ArrayFrame([])], S0);
    var r := Parsed(START, [JArray([JNumber(a)])]);
    MissingCommaTail(a, b);
    assert START.stack + [ArrayFrame([])] == empty.stack;
    Prepend(START, Punct(LBRACKET), empty, [NumberToken(a), NumberToken(b), Punct(RBRACKET)], r);
  }

  /** `1 2]` inside an array just opened. */
  lemma MissingCommaTail(a: seq<Unit>, b: seq<Unit>)
    ensures ParseTokens(Parser([ArrayFrame([])], S0), [NumberToken(a), NumberToken(b), Punct(RBRACKET)]) ==
            Parsed(START, [JArray([JNumber(a)])])
  {
    var one := JNumber(a);
    var empty := Parser([ArrayFrame([])], S0);
    var arr := Parser([ArrayFrame([one])], Arr1);
    var r := Parsed(START, [JArray([one])]);
    SkippedClose(a, b);
    ResolveIntoArray([], [], one);
    assert [] + [ArrayFrame([])] == [ArrayFrame([])] && [] + [one] == [one] && [] + [ArrayFrame([one])] == [ArrayFrame([one])];
    Prepend(empty, NumberToken(a), arr, [NumberToken(b), Punct(RBRACKET)], r);
  }

  /** `2]` after the element of `[1`. */
  lemma SkippedClose(a: seq<Unit>, b: seq<Unit>)
    ensures Inv(Parser([ArrayFrame([JNumber(a)])], Arr1))
    ensures ParseTokens(Parser([ArrayFrame([JNumber(a)])], Arr1), [NumberToken(b), Punct(RBRACKET)]) ==
            Parsed(START, [JArray([JNumber(a)])])
  {
    var arr := Parser([ArrayFrame([JNumber(a)])], Arr1);
    var r := Parsed(START, [JArray([JNumber(a)])]);
    ParseOne(arr, Punct(RBRACKET));
    Prepend(arr, NumberToken(b), arr, [Punct(RBRACKET)], r);
  }
}
