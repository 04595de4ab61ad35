/** Values shared by the whole model: optional results, the consumer's
    continuation signal, UTF-16 code units, and the character predicates that
    the JSON lexer and the list helpers use (taak.js:40-91, doc/zen.js:21-72). */
module Base {

  datatype Option<T> = None | Some(value: T)

  /** What a consumer callback returns: the source's private STOP object, or
      anything else (JavaScript's `undefined` included), which means go on. */
  datatype Signal = Continue | Stop

  /** A JavaScript string is a sequence of UTF-16 code units. */
  type Unit = x: int | 0 <= x < 0x1_0000

  /** The code units of a literal made only of Basic Multilingual Plane characters. */
  function U(s: string): (r: seq<Unit>)
    requires forall i :: 0 <= i < |s| ==> s[i] as int < 0x1_0000
    ensures |r| == |s| && forall i :: 0 <= i < |s| ==> r[i] == s[i] as int
  {
    if s == [] then [] else [s[0] as int as Unit] + U(s[1..])
  }

  // Code units the lexer compares against.
  const TAB: Unit := 9
  const LF: Unit := 10
  const VT: Unit := 11
  const FF: Unit := 12
  const CR: Unit := 13
  const SPACE: Unit := 32
  const QUOTE: Unit := 34
  const DOLLAR: Unit := 36
  const PLUS: Unit := 43
  const COMMA: Unit := 44
  const MINUS: Unit := 45
  const DOT: Unit := 46
  const SLASH: Unit := 47
  const COLON: Unit := 58
  const UPPER_E: Unit := 69
  const LBRACKET: Unit := 91
  const BACKSLASH: Unit := 92
  const RBRACKET: Unit := 93
  const UNDERSCORE: Unit := 95
  const LOWER_B: Unit := 98
  const LOWER_E: Unit := 101
  const LOWER_F: Unit := 102
  const LOWER_N: Unit := 110
  const LOWER_R: Unit := 114
  const LOWER_T: Unit := 116
  const LOWER_U: Unit := 117
  const LBRACE: Unit := 123
  const RBRACE: Unit := 125
  const BS: Unit := 8

  /** JavaScript's `<` on two strings: lexicographic order of code units. */
  function JsLess(a: seq<Unit>, b: seq<Unit>): bool
  {
    if b == [] then false
    else if a == [] then true
    else if a[0] != b[0] then a[0] < b[0]
    else JsLess(a[1..], b[1..])
  }

  /** JavaScript's `<=` on two strings. */
  function JsLessEq(a: seq<Unit>, b: seq<Unit>): bool
  {
    !JsLess(b, a)
  }

  /** What `nextChar` hands to the scan functions: a code unit of the buffer,
      or one of the two private marker objects EMPTY and END. */
  datatype Symbol = Ch(u: Unit) | Empty | End

  /** The marker objects are plain `{}`; compared with a string they are
      converted to the text "[object Object]". */
  const OBJECT_TEXT: seq<Unit> := [91, 111, 98, 106, 101, 99, 116, 32, 79, 98, 106, 101, 99, 116, 93]

  function JsText(c: Symbol): seq<Unit>
  {
    if c.Ch? then [c.u] else OBJECT_TEXT
  }

  /** `c === s` for a one-unit string s: only a code unit can be identical to a string. */
  predicate Is(c: Symbol, s: Unit)
  {
    c == Ch(s)
  }

  lemma ObjectTextStart()
    ensures |OBJECT_TEXT| == 15 && OBJECT_TEXT[0] == LBRACKET
  {
  }

  /** JavaScript's `<`/`<=` of a symbol against a one- or two-unit string
      depends only on the symbol's first unit (`[` for the markers). */
  lemma LessOneUnit(c: Symbol, x: Unit)
    ensures JsLess(JsText(c), [x]) <==> (if c.Ch? then c.u < x else LBRACKET < x)
    ensures JsLess([x], JsText(c)) <==> (if c.Ch? then x < c.u else x <= LBRACKET)
  {
    var t := JsText(c);
    assert t != [] && t[0] == (if c.Ch? then c.u else LBRACKET);
    assert t[0] == x ==> JsLess([x], t) == JsLess([], t[1..]);
    assert t[0] == x ==> JsLess(t, [x]) == JsLess(t[1..], []);
  }

  /** isWhiteSpace (taak.js:40-42): space, TAB, LF, CR or VT. */
  predicate IsWhiteSpace(c: Symbol)
  {
    c.Ch? && (c.u == SPACE || c.u == TAB || c.u == LF || c.u == CR || c.u == VT)
  }

  /** The source's loose `==` against one-character strings: a marker is
      converted to its text, which is none of them. */
  lemma IsWhiteSpaceAsWritten(c: Symbol)
    ensures IsWhiteSpace(c) <==>
      JsText(c) == [SPACE] || JsText(c) == [TAB] || JsText(c) == [LF] || JsText(c) == [CR] || JsText(c) == [VT]
  {
    ObjectTextStart();
  }

  /** isDigit (taak.js:44-46): a code unit from '0' to '9'. */
  predicate IsDigit(c: Symbol)
  {
    c.Ch? && 48 <= c.u <= 57
  }

  /** The source compares strings: '0' <= c && c <= '9'. */
  lemma IsDigitAsWritten(c: Symbol)
    ensures IsDigit(c) <==> JsLessEq([48], JsText(c)) && JsLessEq(JsText(c), [57])
  {
    LessOneUnit(c, 48);
    LessOneUnit(c, 57);
  }

  /** isHexDigit (taak.js:48-50). */
  predicate IsHexDigit(c: Symbol)
  {
    c.Ch? && (48 <= c.u <= 57 || 97 <= c.u <= 102 || 65 <= c.u <= 70)
  }

  lemma IsHexDigitAsWritten(c: Symbol)
    ensures IsHexDigit(c) <==> IsDigit(c) || (JsLessEq([97], JsText(c)) && JsLessEq(JsText(c), [102])) ||
                               (JsLessEq([65], JsText(c)) && JsLessEq(JsText(c), [70]))
  {
    IsDigitAsWritten(c);
    LessOneUnit(c, 97);
    LessOneUnit(c, 102);
    LessOneUnit(c, 65);
    LessOneUnit(c, 70);
  }

  /** `c <= 'z￿'` holds exactly when the first unit of c is at most 'z'. */
  lemma LessEqWithMax(c: Symbol, x: Unit)
    requires x < 0xFFFF
    ensures JsLessEq(JsText(c), [x, 0xFFFF]) <==> (if c.Ch? then c.u <= x else LBRACKET <= x)
  {
    ObjectTextStart();
    var t := JsText(c);
    var b: seq<Unit> := [x, 0xFFFF];
    if t[0] == x {
      assert JsLess(b, t) == JsLess(b[1..], t[1..]);
      if c.Ch? {
        assert t[1..] == [];
      } else {
        assert t[1] == 111;
      }
    }
  }

  /** isLetter (taak.js:52-54): an ASCII letter. */
  predicate IsLetter(c: Symbol)
  {
    c.Ch? && (97 <= c.u <= 122 || 65 <= c.u <= 90)
  }

  /** The source's bounds 'z\uffff' and 'Z\uffff' make its string comparisons
      an ASCII letter test. */
  lemma IsLetterAsWritten(c: Symbol)
    ensures IsLetter(c) <==> (JsLessEq([97], JsText(c)) && JsLessEq(JsText(c), [122, 0xFFFF])) ||
                             (JsLessEq([65], JsText(c)) && JsLessEq(JsText(c), [90, 0xFFFF]))
  {
    LessOneUnit(c, 97);
    LessOneUnit(c, 65);
    LessEqWithMax(c, 122);
    LessEqWithMax(c, 90);
  }

  /** isIdStartChar (taak.js:56-58). */
  predicate IsIdStartChar(c: Symbol)
  {
    IsLetter(c) || Is(c, UNDERSCORE) || Is(c, DOLLAR)
  }

  /** isIdChar (taak.js:60-62). */
  predicate IsIdChar(c: Symbol)
  {
    IsLetter(c) || IsDigit(c) || Is(c, UNDERSCORE) || Is(c, DOLLAR)
  }

  /** isJsonStringChar (taak.js:68-71): neither backslash nor quote, above
      0x1F and outside 0x7F-0x9F. The markers are not identical to either
      string and compare as "[object Object]", so the predicate holds of
      EMPTY and END: `acceptWhile` on it never stops at the end of the buffer. */
  predicate IsJsonStringChar(c: Symbol)
  {
    !c.Ch? || (c.u != BACKSLASH && c.u != QUOTE && c.u > 0x1F && (c.u < 0x7F || c.u > 0x9F))
  }

  lemma IsJsonStringCharAsWritten(c: Symbol)
    ensures IsJsonStringChar(c) <==> !Is(c, BACKSLASH) && !Is(c, QUOTE) && JsLess([0x1F], JsText(c)) &&
                                     (JsLess(JsText(c), [0x7F]) || JsLess([0x9F], JsText(c)))
  {
    LessOneUnit(c, 0x1F);
    LessOneUnit(c, 0x7F);
    LessOneUnit(c, 0x9F);
  }

  /** The escape letters accepted after a backslash (taak_src.js:240):
      `"\"\\/bfnrt".indexOf(c) >= 0`. A marker is converted to its text,
      which is not found. */
  const ESCAPES: seq<Unit> := [QUOTE, BACKSLASH, SLASH, LOWER_B, LOWER_F, LOWER_N, LOWER_R, LOWER_T]

  predicate IsEscapeLetter(c: Symbol)
  {
    c.Ch? && c.u in ESCAPES
  }

  /** unescape (taak.js:73-91): the character an escape letter stands for. */
  function Unescape(c: Unit): (r: Unit)
    requires c in ESCAPES
    ensures c == LOWER_B ==> r == BS
    ensures c == LOWER_F ==> r == FF
    ensures c == LOWER_N ==> r == LF
    ensures c == LOWER_R ==> r == CR
    ensures c == LOWER_T ==> r == TAB
    ensures c in {QUOTE, BACKSLASH, SLASH} ==> r == c
  {
    if c == QUOTE then QUOTE
    else if c == BACKSLASH then BACKSLASH
    else if c == SLASH then SLASH
    else if c == LOWER_B then BS
    else if c == LOWER_F then FF
    else if c == LOWER_N then LF
    else if c == LOWER_R then CR
    else TAB
  }

  /** The value of one hexadecimal digit. */
  function HexValue(c: Unit): (r: nat)
    requires IsHexDigit(Ch(c))
    ensures r < 16
  {
    if c <= 57 then c - 48 else if c <= 70 then c - 55 else c - 87
  }

  /** parseInt(code, 16) of four hexadecimal digits: one code unit. */
  function HexUnit(code: seq<Unit>): (r: Unit)
    requires |code| == 4 && forall i :: 0 <= i < 4 ==> IsHexDigit(Ch(code[i]))
    ensures r == HexValue(code[0]) * 4096 + HexValue(code[1]) * 256 + HexValue(code[2]) * 16 + HexValue(code[3])
  {
    HexValue(code[0]) * 4096 + HexValue(code[1]) * 256 + HexValue(code[2]) * 16 + HexValue(code[3])
  }

  // The inverse direction: how a JSON writer escapes a code unit, against
  // which the lexer's unescaping is stated.

  /** The code units with a two-character escape other than the solidus. */
  predicate HasShortEscape(u: Unit)
  {
    u == QUOTE || u == BACKSLASH || u == BS || u == FF || u == LF || u == CR || u == TAB
  }

  /** The escape letter of a unit with a short escape. */
  function EscapeLetter(u: Unit): (c: Unit)
    requires HasShortEscape(u)
  {
    if u == BS then LOWER_B
    else if u == FF then LOWER_F
    else if u == LF then LOWER_N
    else if u == CR then LOWER_R
    else if u == TAB then LOWER_T
    else u
  }

  /** unescape undoes the short escapes, and every escape letter but the
      solidus is the escape letter of the unit it stands for. */
  lemma UnescapeInverse(u: Unit, c: Unit)
    ensures HasShortEscape(u) ==> EscapeLetter(u) in ESCAPES && Unescape(EscapeLetter(u)) == u
    ensures c in ESCAPES && c != SLASH ==> HasShortEscape(Unescape(c)) && EscapeLetter(Unescape(c)) == c
  {
  }

  /** A unit with a short escape is written as a backslash and a letter
      other than 'u' that unescape turns back into the unit. */
  lemma ShortEscapeForm(u: Unit)
    requires !IsJsonStringChar(Ch(u)) && HasShortEscape(u)
    ensures EscapeUnit(u) == [BACKSLASH, EscapeLetter(u)] && IsEscapeLetter(Ch(EscapeLetter(u)))
    ensures EscapeLetter(u) != LOWER_U && Unescape(EscapeLetter(u)) == u
  {
    UnescapeInverse(u, EscapeLetter(u));
  }

  /** The lower-case hexadecimal digit of a value below 16. */
  function HexDigit(d: nat): (c: Unit)
    requires d < 16
    ensures IsHexDigit(Ch(c)) && HexValue(c) == d
  {
    if d < 10 then 48 + d else 87 + d
  }

  /** The last k hexadecimal digits of v, most significant first. */
  function HexDigits(v: nat, k: nat): (code: seq<Unit>)
    ensures |code| == k && forall i :: 0 <= i < k ==> IsHexDigit(Ch(code[i]))
    decreases k
  {
    if k == 0 then [] else HexDigits(v / 16, k - 1) + [HexDigit(v % 16)]
  }

  /** The four digits of a \u escape, which parseInt(code, 16) reads back. */
  lemma HexRoundTrip(u: Unit)
    ensures HexUnit(HexDigits(u, 4)) == u
  {
    var q1, q2, q3 := u / 16, u / 16 / 16, u / 16 / 16 / 16;
    assert u == q1 * 16 + u % 16 && q1 == q2 * 16 + q1 % 16 && q2 == q3 * 16 + q2 % 16;
    assert q3 < 16 && q3 % 16 == q3;
    assert HexDigits(u, 4) == HexDigits(q1, 3) + [HexDigit(u % 16)];
    assert HexDigits(q1, 3) == HexDigits(q2, 2) + [HexDigit(q1 % 16)];
    assert HexDigits(q2, 2) == HexDigits(q3, 1) + [HexDigit(q2 % 16)];
    assert HexDigits(q3, 1) == [HexDigit(q3)];
    assert HexDigits(u, 4) == [HexDigit(q3), HexDigit(q2 % 16), HexDigit(q1 % 16), HexDigit(u % 16)];
  }

  /** One code unit inside a JSON string literal: a plain string character
      stands for itself, the seven with a short escape take it, and every
      other unit (a control character) is written \u and four digits. */
  function EscapeUnit(u: Unit): (e: seq<Unit>)
    ensures |e| == 1 <==> IsJsonStringChar(Ch(u))
    ensures |e| != 1 ==> |e| >= 2 && e[0] == BACKSLASH
  {
    if IsJsonStringChar(Ch(u)) then [u]
    else if HasShortEscape(u) then [BACKSLASH, EscapeLetter(u)]
    else [BACKSLASH, LOWER_U] + HexDigits(u, 4)
  }

  /** The body of a JSON string literal for the text t. */
  function Escaped(t: seq<Unit>): (e: seq<Unit>)
    ensures |e| >= |t|
  {
    if t == [] then [] else EscapeUnit(t[0]) + Escaped(t[1..])
  }

  /** Concatenation regroups; stated once so that proofs over long
      concatenations can name the step. */
  lemma AppendAssoc<T>(a: seq<T>, b: seq<T>, c: seq<T>)
    ensures a + (b + c) == (a + b) + c
  {
  }

  /** The escaped form of a non-empty text is its first unit's escape followed by the rest's. */
  lemma EscapedCons(t: seq<Unit>)
    requires t != []
    ensures Escaped(t) == EscapeUnit(t[0]) + Escaped(t[1..])
  {}

  /** A slice that holds a + b holds a, then b. */
  lemma SliceSplit<T>(s: seq<T>, c: nat, n: nat, a: seq<T>, b: seq<T>)
    requires n == |a| + |b| && c + n <= |s| && s[c..c + n] == a + b
    ensures s[c..c + |a|] == a && s[c + |a|..c + n] == b
  {
    assert s[c..c + |a|] == s[c..c + n][..|a|];
    assert s[c + |a|..c + n] == s[c..c + n][|a|..];
  }

  /** Moving the first unit of t onto the end of a. */
  lemma MoveFirst<T>(a: seq<T>, t: seq<T>)
    requires t != []
    ensures a + t == (a + [t[0]]) + t[1..]
  {
    assert t == [t[0]] + t[1..];
  }

  /** A suffix of a sequence is its first element followed by the rest. */
  lemma SliceCons<T>(xs: seq<T>, k: int)
    requires 0 <= k < |xs|
    ensures xs[k..] == [xs[k]] + xs[k + 1..]
  {
  }
}
