# taak in Dafny: push streams, lists and the incremental JSON reader

taak is a small JavaScript toolkit. Its core, modelled here, has four parts:

- **Lists.** An eager list wraps a JavaScript array. Its methods (`min`, `max`,
  `indexOf`, `map`, `filter`, `drop`, `take`, `fold`, `reverse`, …) delegate to
  `Array.prototype`.
- **Combinators.** A handful of function combinators (`flatten`, `compose`,
  `pick`, `step`, `conjoin`, `disjoin`, `anyjoin`) and the character
  predicates the JSON lexer uses.
- **Push streams.** A stream has a single operation, `each(f)`. It pushes
  elements to the callback `f` until `f` returns the private `STOP` object.
  Operators (`map`, `filter`, `take`, `slice`, `concat`, …) wrap a source
  stream. Reducers (`fold`, `all`, `head`, `toArray`, …) drive it.
- **`fromJson`.** It turns a stream of text fragments into a stream of
  JavaScript values:
  - `json_lexer` is a resumable lexer. Its `state` field holds the scan
    function to call next.
  - The lexer feeds a stack-machine parser.
  - The parser hands every complete top-level value to the consumer.

## How the model is built

**Consumers.** A callback is a function from the *history* of elements it
has received to `Continue` or `Stop`. This covers every callback the source
writes, since each one can only depend on what it has seen.

**What a consumer receives.** `Streams.Cut(s, k)` is what consumer `k`
receives when the elements `s` are pushed to it one at a time. It is the
shortest prefix of `s` that `k` stops on, or all of `s`.

**Operators.** Every operator's `each` is an imperative method with the
source's loop and counters. It is proved against `Cut` of a reference
sequence:

- `map` gets `Map`;
- `filter` gets `Filter`;
- `drop`, `take` and `slice` get the clamped sub-range;
- `concat` gets two cuts chained by the shifted consumer `After`.

**Pull counts.** The methods also state how many source elements were
pulled. The source's own counters decide that number, including one pull
past the end in some operators.

**Endless sources.** The function, `seq` and `iter` streams are endless.
Their model takes a generator `nat -> T` and a ghost bound `n`, which
promises that the consumer stops within `n` elements.

**Lexer.**
- The lexer is a value `JsonLexer.Lex` holding the fields `buf`, `start`,
  `current`, `string`, `state` and `ended`.
- Each scan function is a pure step (`InitStep`, `Num1Step` … `Id1Step`),
  dispatched by `Step`.
- The drive loop of the fragment callback is `Drain`. It ends in one of
  four ways: it stops on an empty, end or error lexeme; it hangs (never
  returns); it crashes; or the consumer stops it.
- `LexAll` runs the lexer over a sequence of fragments.
- `Base.Escaped` writes a text as a JSON string body, with short escapes and
  `\uXXXX` for the other control characters. `JsonLexer.EscapedStringLexes`
  proves that the lexer reads any such body back as the text it came from.

**Parser.**
- The parser is `JsonParser.Parser`, made of a stack and a phase. `ParseStep`
  is one call of its callback.
- `Doc` is a grammar of the texts the lexer can deliver.
- `Tokens` and `Value` give a text's tokens and its value. The parser is
  proved to hand on exactly `Value(d)` for `Tokens(d)`.

**Whole pipeline.** `JsonDecode.DecodeAll` runs lexer, parser and consumer
together over the fragments. `JsonObjects` has the same two objects as
classes whose methods update fields. Each method is proved to agree with the
pure step it implements.

**Numbers.** A number stays as its lexed text (a sequence of UTF-16 code
units). `Number()` conversion is not part of this model.

### Where the code differs from the documented behaviour

The model follows the code. These behaviours differ from what the
documentation suggests, and each one is proved as stated:

- **Lexer errors are never forwarded.**
  - The drive loop ends the fragment on an error lexeme without passing it
    on (doc/taak_src.js:303).
  - The lexer then stays in `lex_error`, so no later token is produced
    (`JsonLexer.ErrorAbsorbs`).
- **Parse errors are silent.** The parser enters an `Error` state that
  swallows every later token (`JsonParser.ErrorAbsorbs`).
- **Trailing commas are accepted, missing commas are skipped.**
  - After an array element, any token other than `,` and `]` is ignored; the
    same holds after an object member.
  - So `[1,]` is `[1]` and `[1 2]` is `[1]` (`JsonParser.TrailingCommas`,
    `JsonParser.MissingCommaIgnored`).
- **A string cut by the end of a fragment hangs the drive loop.** It does not
  throw.
  - `isJsonStringChar` is true of the EMPTY marker, so `acceptWhile` never
    stops. The `EMPTY` branch of `lex_str1` is unreachable.
  - A `\u` escape with fewer than five code units left returns the same
    state forever (`JsonLexer.StringCutHangs`,
    `JsonLexer.UnicodeEscapeCutHangs`).
- **`ended` is never set.** That happens because the fragment source never
  yields the END marker.
- **A token whose first character is the last in its fragment loses that
  character.** `skip` sets `start` past it (`JsonLexer.SkipQuirk`).
- **Only some final tokens wait for more input.**
  - A number or identifier at the very end of the last fragment is never
    forwarded (`JsonTraces.LastNumberWaits`). A following character, such as
    the trailing space of the documented example, closes it.
  - A closing bracket or brace is forwarded at once.
- **`append` always throws.** After the source has been forwarded, the
  final `f(x)` names an `x` that is not in scope, so the call throws instead
  of handing on the item (`StreamOps.AppendEach`).
- **`splice` never delivers anything.** `proto_stream.splice` creates its
  stream on the *slice* prototype with no bounds. The `splice` body is
  modelled separately (`StreamOps.SpliceBodyEach`).
- **`all` and `any` ignore the predicate.**
  - `return false` only leaves the callback.
  - So `all` is always `true` and `any` always `false`.
- **`concat` drives its second source after a STOP in the first.**
- **`lines` never flushes its final partial line.**

## Model

| member | source | states |
|---|---|---|
| Base.IsWhiteSpaceAsWritten | taak.js:40-42 | the source's loose `==` comparisons hold exactly for space, TAB, LF, CR and VT code units, never for a marker object |
| Base.IsDigitAsWritten | taak.js:44-46 | JavaScript string comparison `'0' <= c && c <= '9'` holds exactly for the ten digit code units |
| Base.IsHexDigitAsWritten | taak.js:48-50 | the source's string comparisons accept exactly the digits and the letters a-f and A-F |
| Base.IsLetterAsWritten | taak.js:52-54 | the bounds `'z￿'` and `'Z￿'` make the comparisons accept exactly the ASCII letters |
| Base.IsJsonStringCharAsWritten | taak.js:68-71 | the source's test holds for every code unit except quote, backslash and the C0 and C1 control ranges, and it holds for the marker objects (their text starts with `[`) |
| Base.Unescape | taak.js:73-91 | each escape letter stands for its character: b, f, n, r, t for the control characters, and `"` `\` `/` for themselves; Base.UnescapeInverse and JsonLexer.EscapedStringLexes prove that reading escapes inverts writing them |
| Base.UnescapeInverse | taak.js:73-91 | the escape table is a bijection between the escape letters other than `/` and the seven characters with a short escape |
| Base.HexRoundTrip | doc/taak_src.js:253-259 | the four hex digits written for a code unit read back as that code unit |
| Lists.Map | taak.js:479-481 | the result has the list's length, and element i is f applied to element i; StreamOps.MapEach is proved against it, and Lists.MapAppend shows it distributes over concatenation |
| Lists.MapAppend | taak.js:479-481 | mapping distributes over concatenation |
| Lists.FilterStep | taak.js:483-485 | filtering one more element adds it exactly when it satisfies the predicate |
| Lists.FilterAppend | taak.js:483-485 | filtering distributes over concatenation |
| Lists.FilterPrefix | taak.js:483-485 | filtering a prefix gives a prefix of the filtered list |
| Lists.FilterMembers | taak.js:483-485 | x is in the filtered list iff it is in the list and satisfies the predicate; the result is never longer |
| Lists.RelativeIndex | taak.js:487-493 | an argument of `slice` counts from the start when non-negative and from the end when negative, clamped to 0..length |
| Lists.TakeDropSplit | taak.js:487-493 | `take(n)` followed by `drop(n)` is the whole list for every n, with the lengths clamping gives, including negative n |
| Lists.DropTakeExamples | test/test_list.js:100-116 | the documented drop and take results: drop(1) has 4 elements, drop(3) is [4,5], take(3) of 1..5 is [1,2,3] |
| Lists.Min | taak.js:451-455 | None exactly on the empty list; otherwise an element of the list no greater than any element |
| Lists.Max | taak.js:457-461 | None exactly on the empty list; otherwise an element of the list no smaller than any element |
| Lists.IndexOf | taak.js:463-469 | -1 or an index holding the value at or after the start position, with no occurrence between the start and that index |
| Lists.LastIndexOf | taak.js:471-477 | -1 or an index holding the value at or before the start position, with no occurrence after it up to the start |
| Lists.IndexExamples | test/test_list.js:47-66 | the tested results of indexOf and lastIndexOf, including the search from index 4 and lastIndexOf(7, 5) == 0 |
| Lists.FoldLeftAppend | taak.js:495-497 | folding a concatenation folds the second part starting from the first part's result |
| Lists.FoldExample | taak.js:495-497 | the product fold of [1,2,3,4] from 1 is 24 |
| Lists.All | taak.js:499-501 | true iff every element satisfies the predicate |
| Lists.Any | taak.js:503-505 | true iff some element satisfies the predicate |
| Lists.Get | taak.js:511-513 | a value exactly for indices inside the list, and then the element there; Lists.GetDrop ties it to drop, and StreamReducers.ArrayGetOverride to the stream's get |
| Lists.GetDrop | taak.js:511-513 | get(n) for n >= 0 is the head of drop(n), nothing when that is empty |
| Lists.ReversedIndex | taak.js:515-517 | the reversal has the same length and element k is element length-1-k of the original |
| Lists.ReversedTwice | taak.js:515-517 | reversing twice gives the list back |
| Lists.Reverse | taak.js:515-517 | the array is reversed in place |
| Combinators.ConcatAppend | taak.js:226-237 | flattening a concatenation of outer arrays concatenates their flattenings |
| Combinators.ConcatLength | taak.js:226-237 | the flattened array is as long as the inner arrays together |
| Combinators.Flatten | taak.js:226-237 | the copy loop produces the one-level concatenation of the inner arrays |
| Combinators.FlattenExample | test/test_base.js:207-218 | one level only: [[1,2],[],[3]] gives [1,2,3] and nested arrays stay arrays |
| Combinators.ComposeApply | taak.js:241-251 | the loop counting down from the last function computes f0(f1(…fk(x))) |
| Combinators.ComposedAppend | taak.js:241-251 | composition is associative: composing a concatenation composes the parts |
| Combinators.ComposeExample | test/test_base.js:220-235 | compose(neg, square, add5) gives -225, -25 and -49 on 10, 0 and 2 |
| Combinators.Pick | taak.js:259-268 | one entry per name, in order, holding the object's value under that name or nothing |
| Combinators.Step | taak.js:296-300 | 0 below the threshold and 1 from it on; Combinators.StepMonotone proves it monotone |
| Combinators.StepMonotone | taak.js:296-300 | the step function never decreases, and moving the threshold is shifting the argument |
| Combinators.Conjoin | taak.js:323-332 | the result is truthy iff every predicate's value is; it is the value of the last predicate called, and calls stop after the first falsy one |
| Combinators.Disjoin | taak.js:334-343 | the result is truthy iff some predicate's value is; it is the first truthy value or the last falsy one, and calls stop after the first truthy one |
| Combinators.Anyjoin | taak.js:310-321 | true iff some predicate returns exactly `true` (a merely truthy value does not count); calls stop at the first one |
| Streams.CutSpec | taak.js:555-942 | a consumer receives a prefix of the elements; it said Continue to every element before the last it received, and Stop to that last one if anything was withheld |
| Streams.CutNeverStop | taak.js:708-714 | a consumer that never stops receives every element |
| Streams.ArrayEach | taak.js:742-749 | the array's elements are pushed in order until the consumer stops |
| Streams.ToArrayFromArray | taak.js:708-714 | running the array stream's each with toArray's never-stopping callback collects the array back |
| StreamOps.MapEach | taak.js:764-769 | the consumer receives the transformed elements up to its stop, and one source element is pulled per delivered value |
| StreamOps.Neighbours | taak.js:771-784 | map2 forwards one value fewer than the source, value i being transform of elements i and i+1 |
| StreamOps.Map2Each | taak.js:771-784 | the consumer receives the neighbour values up to its stop; the source is pulled one further than delivered, or to its end |
| StreamOps.FilterEach | taak.js:786-793 | the consumer receives the matching elements up to its stop; the pulled prefix holds exactly the delivered values, and a stop happens on a matching element |
| StreamOps.DropEach | taak.js:795-804 | the consumer receives the elements after the first n (none dropped for n <= 0) up to its stop |
| StreamOps.TakeEach | taak.js:806-815 | the consumer receives the first n elements up to its stop, and the source is pulled once beyond the n-th element |
| StreamOps.SliceEach | taak.js:817-831 | the consumer receives the source indices from n up to m up to its stop; an omitted bound makes `i < m` or `i >= n` false, so nothing is delivered; a slice that is not stopped pulls the whole source |
| StreamOps.SliceDrainsSource | taak.js:817-831 | running slice's each with a never-stopping consumer delivers a[n..m] and still pulls every source element |
| StreamOps.SpliceEach | taak.js:621-628 | `splice` builds a slice stream with no bounds set, which delivers nothing and pulls the whole source |
| StreamOps.Spliced | taak.js:833-854 | the splice body yields one entry per source element |
| StreamOps.SpliceBodyEach | taak.js:833-854 | the splice body's callback delivers the spliced entries up to the consumer's stop |
| StreamOps.AppendEach | taak.js:856-863 | the source is delivered up to the consumer's stop and then the call throws |
| StreamOps.CutAppend | taak.js:876-887 | pushing two sequences to one consumer is pushing the first and, unless it stopped, the second to the shifted consumer |
| StreamOps.PrefixEach | taak.js:865-874 | the item is delivered first, then the source, up to the stop; the result signal is the consumer's answer to the item |
| StreamOps.ConcatEach | taak.js:876-887 | the first source is cut by the consumer and the second by the consumer shifted past what it received |
| StreamOps.ConcatIgnoresStop | taak.js:876-887 | after a STOP inside the first source, concat delivers more than pushing the concatenation would |
| StreamReducers.FoldEach | taak.js:660-666 | the left fold of every element, all of them pulled |
| StreamReducers.AllEach | taak.js:668-675 | always true with every element tested; it differs from the list's `all` exactly when some element fails |
| StreamReducers.AnyEach | taak.js:677-684 | always false with every element tested; it differs from the list's `any` exactly when some element passes |
| StreamReducers.HeadEach | taak.js:686-693 | the first element, or nothing for an empty source, pulling at most one element |
| StreamReducers.GetEach | taak.js:695-706 | the element at index n (index 0 for n <= 0), pulling up to it |
| StreamReducers.ArrayGetOverride | taak.js:751-753 | an array stream's own get reads the array at n, which is the list's get; the generic stream get agrees with it exactly for n >= 0 or an empty array, and for negative n returns element 0 where the override returns nothing |
| StreamReducers.ToArrayEach | taak.js:708-714 | every element, in order |
| StreamGenerators.Generated | taak.js:755-762 | the first n generated values, value i being the i-th call |
| StreamGenerators.FunctionEach | taak.js:755-762 | the generated values up to the consumer's stop, and the call returns STOP |
| StreamGenerators.Arithmetic | taak.js:889-896 | value i of the sequence stream is seed + i * step |
| StreamGenerators.SeqEach | taak.js:889-896 | the arithmetic sequence up to the consumer's stop, returning STOP |
| StreamGenerators.Iterated | taak.js:898-906 | the iteration starts at the seed and each value is next of the one before |
| StreamGenerators.IterEach | taak.js:898-906 | the iterated values up to the consumer's stop, returning STOP |
| StreamGenerators.FromSeed | taak.js:1007-1014 | `seed \|\| 0`: a missing or zero seed is 0, any other seed is kept; StreamGenerators.FromFalsyArguments shows what this means for the generated values |
| StreamGenerators.FromIncrement | taak.js:1007-1014 | `step \|\| 1`: the increment is never zero and is the given step when that is non-zero |
| StreamGenerators.FromFalsyArguments | taak.js:1011-1012 | a zero seed counts from 0 as a missing one does, and a zero step steps by 1 as a missing one does |
| StreamGenerators.FromEach | taak.js:1007-1014 | from(seed, step) delivers its values up to the consumer's stop |
| StreamGenerators.FromExamples | taak.js:998-1006 | the documented sequences: from() is 0,1,2,…, from(100,-2) counts down by 2, from(1, x=>2x) doubles |
| StreamGenerators.TakeGeneratedEach | taak.js:806-815 | take(n) over a generator delivers the first n values, generating one more than it delivers when the consumer does not stop |
| StreamGenerators.TakeGeneratedExtraPull | taak.js:806-815 | running take(n)'s each over a generator with a never-stopping consumer delivers the first n values and generates n + 1 |
| StreamLines.LinesAreLineFree | taak.js:915-941 | no line and not the unfinished tail contains a line feed |
| StreamLines.LinesOfPrefix | taak.js:915-941 | reading further text only adds lines |
| StreamLines.LinesRoundTrip | taak.js:915-941 | the lines, each followed by a line feed, and then the tail give back the text |
| StreamLines.LinesUnique | taak.js:915-941 | splitting is the only way to write a text as line-feed-free lines and a tail |
| StreamLines.LinesExample | taak.js:915-941 | "ab\ncd\n\nef" gives the lines "ab", "cd", "" and the tail "ef", which is never delivered |
| StreamLines.LinesCallback | taak.js:917-940 | one fragment either keeps the lines and buffer of the text so far or stops on a line of it |
| StreamLines.LinesEach | taak.js:915-941 | the consumer receives the complete lines of the concatenated fragments up to its stop; without a stop every fragment is pulled and the buffer holds the unfinished tail; on a stop, the last fragment pulled is the one whose line feed completed the stopping line |
| JsonLexer.JsSlice | doc/taak_src.js:126-292 | `slice` as the lexer calls it (number text at 126, 170 and 211, the plain string run at 221, the four units of a unicode escape at 253, the identifier at 280, the kept buffer on a splice at 292): inside the bounds it is the sub-sequence |
| JsonLexer.NextChar | doc/taak_src.js:35-45 | the code unit at current and current advanced, or at the end the EMPTY (END once ended) marker with nothing changed |
| JsonLexer.SkipWhiteSpaceFacts | doc/taak_src.js:47-58 | skipping whitespace moves only current, consumes only whitespace, and returns the first non-blank character or EMPTY |
| JsonLexer.AcceptWhileFacts | doc/taak_src.js:60-66 | acceptWhile moves only current, over characters that satisfy the predicate, and stops on the first that does not, or spins forever when EMPTY satisfies it |
| JsonLexer.StepKeepsValid | doc/taak_src.js:72-283 | every scan function keeps 0 <= start <= current <= length of the buffer and leaves the buffer alone |
| JsonLexer.StepNeverThrows | doc/taak_src.js:216-270 | no scan function throws on a lexer that is not ended |
| JsonLexer.Drain | doc/taak_src.js:298-307 | the drive loop keeps the lexer valid and ends on a lexeme that is neither a token nor `again` |
| JsonLexer.DrainNeverCrashes | doc/taak_src.js:298-307 | the drive loop never ends by an exception |
| JsonLexer.SpliceFacts | doc/taak_src.js:289-295 | splicing keeps the text from start, appends the fragment, and rebases start and current to the same characters |
| JsonLexer.LexAll | doc/taak_src.js:285-308 | a run over fragments keeps the lexer valid and pulls every fragment unless the drive loop hangs |
| JsonLexer.ErrorAbsorbs | doc/taak_src.js:110-112 | once in lex_error, no fragment yields a token and the lexer stays there |
| JsonLexer.NumberStep | doc/taak_src.js:114-214 | on a text the number grammar has reached, a number scan extends it, waits at the end of the buffer, ends a complete number on the first character that cannot extend it (leaving it unread), or reports 'Bad number' |
| JsonLexer.InitStepFacts | doc/taak_src.js:72-108 | lex_init skips whitespace, sets start at the first non-blank character (past it when it is a quote or the last in the buffer) and ends the fragment on EMPTY |
| JsonLexer.InitClassifies | doc/taak_src.js:72-108 | the first non-blank character decides: structural characters are tokens at once, a digit, '-', '.', quote or identifier start enters its scan state, anything else lex_error, each iff |
| JsonLexer.InitStartsNumber | doc/taak_src.js:72-108 | a number that does not start at the buffer's last character begins the number grammar from its first character |
| JsonLexer.SkipQuirk | doc/taak_src.js:47-58 | a token whose first character is the last in the buffer gets start past that character |
| JsonLexer.IdStep | doc/taak_src.js:272-283 | id1 forwards the longest run of identifier characters as an identifier and leaves the next character unread, or waits at the end of the buffer |
| JsonLexer.Str1Sound | doc/taak_src.js:216-233 | lex_str1 hangs iff the rest of the buffer is plain string characters; otherwise it ends on the first other character: a quote forwards the accumulated string, a backslash enters the escape state, anything else is skipped |
| JsonLexer.Str2Sound | doc/taak_src.js:235-248 | after a backslash, u starts a unicode escape, an escape letter appends its character, anything else is a 'Bad escape character' error; JsonLexer.ShortEscapeRead and JsonLexer.EscapedStringLexes build the string round trip on it |
| JsonLexer.Str3Sound | doc/taak_src.js:250-270 | with more than four code units left, four hex digits append the code unit they spell, anything else is a 'Bad unicode escape' error; with fewer the state is returned unchanged; JsonLexer.UnicodeEscapeRead and JsonLexer.EscapedStringLexes build the string round trip on it |
| JsonLexer.ClosingQuoteRead | doc/taak_src.js:216-233 | a quote read in lex_str1 forwards the accumulated text as one string token and returns to lex_init past it |
| JsonLexer.PlainUnitRead | doc/taak_src.js:216-233 | a plain string character before a closing quote is read into the string text with nothing else changed |
| JsonLexer.ShortEscapeRead | doc/taak_src.js:235-248 | the two-unit escape of a character with a short escape reads back as that character |
| JsonLexer.UnicodeEscapeRead | doc/taak_src.js:250-270 | the `\u` escape with four hex digits of a code unit reads back as that code unit |
| JsonLexer.EscapedStringLexes | doc/taak_src.js:216-270 | for every text, its escaped form followed by a quote is forwarded as one string token holding exactly that text, and the lexer goes on from lex_init past the quote |
| JsonLexer.StringCutHangs | doc/taak_src.js:216-233 | a string that runs to the end of the fragment hangs the drive loop with nothing forwarded |
| JsonLexer.UnicodeEscapeCutHangs | doc/taak_src.js:250-270 | a unicode escape cut by the end of the fragment hangs the drive loop |
| JsonParser.ResolveInv | doc/taak_src.js:407-428 | resolve leaves a parser whose invariant holds, and hands on a value iff the stack was empty |
| JsonParser.PopResolveInv | doc/taak_src.js:369-402 | resolving a popped container keeps the parser invariant |
| JsonParser.ParseStepInv | doc/taak_src.js:317-402 | every token keeps the parser invariant: a key sits on its object, and each state has the frame it expects on top |
| JsonParser.ParseTokensAppend | doc/taak_src.js:317-322 | parsing two token sequences in turn is parsing their concatenation, with the values concatenated |
| JsonParser.ErrorAbsorbs | doc/taak_src.js:317-322 | the error state ignores every later token and hands on nothing |
| JsonParser.IgnoredAfterElement | doc/taak_src.js:369-402 | after an array element or object member, any token other than the separator or closer is ignored |
| JsonParser.ErrorTransitions | doc/taak_src.js:325-394 | a stray ']', an unknown identifier, a misplaced punctuation mark, a non-key in an object, or a missing colon sends the parser to its error state |
| JsonParser.ParseDoc | doc/taak_src.js:325-428 | the tokens of a text, parsed from the start of a value, resolve exactly its value into the stack below |
| JsonParser.TopLevel | doc/taak_src.js:312-428 | at the top level, a text's tokens hand on its value once and leave the parser back at the start |
| JsonParser.NothingBeforeClose | doc/taak_src.js:407-428 | an array or object is handed on only by its closing token |
| JsonParser.TopLevelSequence | doc/taak_src.js:312-428 | texts one after another are handed on one value each, in order |
| JsonParser.TrailingCommas | doc/taak_src.js:369-402 | for every number a and key k, `[a,]` gives [a] and `{k:a,}` gives {k: a}, leaving the parser back at the start |
| JsonParser.MissingCommaIgnored | doc/taak_src.js:369-375 | for every two numbers a and b, in `[a b]` the b is skipped and [a] is handed on |
| JsonDecode.PumpEmit | doc/taak_src.js:298-322 | the agreement of the drive loop with lexing-then-parsing carries back over a step that forwards a token: that token's value, if any, reaches the consumer first, and a STOP on it ends the loop |
| JsonDecode.PumpMeaning | doc/taak_src.js:298-322 | the drive loop with the parser callback hands the consumer exactly the cut of what the parser makes of the lexer's tokens, and ends on a STOP iff the consumer stopped |
| JsonDecode.DecodeMeaning | doc/taak_src.js:285-322 | over any fragments, the consumer receives the cut of the parsed values of all tokens the lexer produces |
| JsonDecode.FromJsonValues | doc/taak_src.js:312-323 | from a fresh lexer and parser, fromJson delivers exactly the parser's values for the lexer's tokens, cut by the consumer |
| JsonObjects.Lexer.constructor | doc/taak_src.js:23-33 | a new lexer is the initial state |
| JsonObjects.Lexer.NextChar | doc/taak_src.js:35-45 | the object's nextChar does what the pure nextChar does to its fields |
| JsonObjects.Lexer.Skip | doc/taak_src.js:47-58 | the object's skip agrees with the pure skip |
| JsonObjects.Lexer.AcceptWhile | doc/taak_src.js:60-66 | the object's acceptWhile agrees with the pure one and reports when the source's loop would spin |
| JsonObjects.Lexer.LexInit | doc/taak_src.js:72-108 | the method agrees with lex_init's pure step |
| JsonObjects.Lexer.LexNum1 | doc/taak_src.js:114-130 | the method agrees with lex_num1's pure step |
| JsonObjects.Lexer.LexNum2 | doc/taak_src.js:132-145 | the method agrees with lex_num2's pure step |
| JsonObjects.Lexer.LexNum3 | doc/taak_src.js:147-158 | the method agrees with lex_num3's pure step |
| JsonObjects.Lexer.LexNum4 | doc/taak_src.js:160-173 | the method agrees with lex_num4's pure step |
| JsonObjects.Lexer.LexNum5 | doc/taak_src.js:175-188 | the method agrees with lex_num5's pure step |
| JsonObjects.Lexer.LexNum6 | doc/taak_src.js:190-201 | the method agrees with lex_num6's pure step |
| JsonObjects.Lexer.LexNum7 | doc/taak_src.js:203-214 | the method agrees with lex_num7's pure step |
| JsonObjects.Lexer.LexStr1 | doc/taak_src.js:216-233 | the method agrees with lex_str1's pure step |
| JsonObjects.Lexer.LexStr2 | doc/taak_src.js:235-248 | the method agrees with lex_str2's pure step |
| JsonObjects.Lexer.LexStr3 | doc/taak_src.js:250-270 | the method agrees with lex_str3's pure step |
| JsonObjects.Lexer.LexId1 | doc/taak_src.js:272-283 | the method agrees with id1's pure step |
| JsonObjects.Lexer.Splice | doc/taak_src.js:289-295 | the fields become the spliced lexer, which is still valid |
| JsonObjects.Lexer.Step | doc/taak_src.js:298-301 | one call of the scan function in `state` agrees with the pure step |
| JsonObjects.Round | doc/taak_src.js:298-306 | one round of the drive loop agrees with the pure drive loop: the remaining run from the new state gives the same values and ending |
| JsonObjects.Feed | doc/taak_src.js:285-308 | the fragment callback delivers what the pure drive loop delivers from the spliced lexer, and ends as it ends |
| JsonObjects.ParserMachine.constructor | doc/taak_src.js:312-316 | a new parser has an empty stack and state S0 |
| JsonObjects.ParserMachine.Resolve | doc/taak_src.js:407-428 | the object's resolve agrees with the pure resolve |
| JsonObjects.ParserMachine.PopResolve | doc/taak_src.js:369-402 | popping and resolving agrees with the pure operation |
| JsonObjects.ParserMachine.StateS0 | doc/taak_src.js:325-367 | the object's S0 agrees with the pure S0 step |
| JsonObjects.ParserMachine.Consume | doc/taak_src.js:317-322 | one token updates the fields as the pure step does and keeps the invariant |
| JsonObjects.ResumeNext | taak.js:742-749 | pulling one more fragment either ends the whole run (on a STOP or a hang) or leaves the rest to be decoded from the state reached |
| JsonObjects.FromJsonEach | doc/taak_src.js:312-323 | the imperative fromJson delivers, pulls and ends exactly as the pure decoding does |
| JsonTraces.SplitTrace | doc/taak_src.js:285-308 | `[1,` `2,3` `]` in three fragments yields `[`, 1, `,`, 2, `,`, an empty number, `]`: the 3 is lost to the skip quirk |
| JsonTraces.SplitDecodes | doc/taak_src.js:312-428 | that input decodes to one array holding the numbers 1, 2 and the empty number text |
| JsonTraces.TraceParses | doc/taak_src.js:325-428 | the parser makes exactly one value of those seven tokens: the array of 1, 2 and the empty number |
| JsonTraces.DocExampleLexes | doc/zen.js:937-948 | the documented fromJson input in one fragment yields its ten tokens |
| JsonTraces.DocExampleDecodes | doc/zen.js:937-948 | the documented input decodes to 1, "abc", [1] and {a: true}, in that order |
| JsonTraces.LastNumberWaits | doc/taak_src.js:114-130 | a number at the very end of the input is never forwarded |
| JsonTraces.TrailingSpaceCloses | doc/taak_src.js:114-130 | a following space makes the lexer forward it |

## Left out

- The DOM helpers, HTTP and WebSocket streams, `tick`, and the lambda compiler `fn`/`parse`: they are I/O or a separate language. None of them is part of the stream, list or JSON core.
- `curry`, `partial`, `flip`, `make`, `extend`, `classOf`, `isEqual` and the numeric helpers: they are not in the core and depend on JavaScript's reflection and dynamic typing.
- `toJson` and the JSON writer: not part of this model.
- List `size`, `head` and `toArray`: these are the sequence's length, `Lists.Get(a, 0)` and the sequence itself. They need no member of their own.
- `stream(...)` and `list(...)` with variadic arguments: a list or array stream is given directly as a sequence.
- Numbers are kept as their lexed text. `Number()` conversion and floating point are not modelled.
- Object key order and duplicate keys: an object is a map, so a repeated key keeps its last value and insertion order is not recorded.
- The END marker path: `ended` is never set by any source, so `Valid` requires it false. `lex_str3` with `ended` set is modelled as a throw, because the source's `state` assignment there refers to an undeclared name.
- StreamGenerators.FunctionEach, StreamGenerators.SeqEach, StreamGenerators.IterEach and StreamGenerators.FromEach: the endless streams are modelled only for consumers that stop within a ghost bound n. A consumer that never stops makes the source loop forever, and that case is not modelled.
- JsonObjects.Round, JsonObjects.Feed: after a round that hangs, the lexer's fields are left unspecified, because the source never returns from that call.
- JsonObjects.Lexer.AcceptWhile: where the source's loop spins forever, the method returns a `spinning` flag instead.
- StreamOps.Map2Each: the carry `a` is reset only when it is `undefined` (taak.js:775). Source elements are modelled as values that are never `undefined`, so an `undefined` element restarting the pairing is not captured.
- JsonParser.Resolve: a `__proto__` key assigned into an object (doc/taak_src.js:417) sets the prototype in JavaScript. Objects are modelled as maps, so that key is stored like any other.
- Lists.Min, Lists.Max: modelled over integers only. JavaScript's `Math.min` and `Math.max` over other values (strings, `NaN`, mixed types) are not captured.
- Stream `each` calls report what was delivered and pulled. Side effects of the consumer beyond its answer are not modelled.
