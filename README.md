# Backtracking parser combinators, a simplified analyzer, and a lexer cursor

This project models three parts of a small Rust parsing toolkit and proves properties of them.

- **Parser combinators** (`parser/src/parser.rs`).
  - Parsers run over a token stream with a cursor.
  - The primitives are `any_one`, `eof`, `val`, `token`, `tokens`, `expect` and `fail`.
  - The combinators are `map`, `attempt`, `or`, `and`, `with`, `skip`, `optional`, `many`/`many1`/`many_n` (one `Loop`), `msg`, `then` and `Either`.
  - A failure carries a `ParserError`: where it happened, the token found there, and what was expected.
  - `or` and `optional` try their alternative only when the first branch failed *without consuming*. `attempt` turns any failure into one without consumption by restoring the cursor.
- **Analyzer combinators** (`src/analyzer.rs`). A lighter variant of the same API that answers only yes or no (`Option`). Its `or` retries from wherever the first branch left the cursor, its `optional` never fails, and its loop checks the minimum count after collecting.
- **Lexer cursor** (`src/lexer.rs`). A position into a character sequence with look-ahead, single-step advance, and the skipping of whitespace and of `//` and `/* */` comments.

## Overview of the Dafny modules

- **Data and semantics.**
  - The parsers are a datatype, `ParserSpec.Parser`, with one constructor per Rust parser struct. The closures of `map`, `expect` and `then` are Dafny function values.
  - The results of all parsers share one value type, `Base.Value` (token, unit, pair, option, list), in place of Rust's per-parser output types.
  - `ParserSpec.Run` is the meaning of a parser: the reply (result and final cursor) it gives on a token sequence from a start position.
  - `AnalyzerSpec.Analysis` is the same for the analyzer.
- **Fuel.** Both meanings take a fuel argument, because a `then` continuation or an unbounded loop need not terminate.
  - One unit is spent per parser call and one per loop round.
  - `OutOfFuel` stands for "the Rust code is still running".
  - `ParserProps.RunFuelMonotone` and `AnalyzerProps.AnalysisFuelMonotone` show that a result, once reached, does not depend on the fuel.
- **The imperative code.** The Rust `parse`/`analyze` methods thread a mutable `Stream`, modelled as the class `Streams.Stream`. They are modelled as the methods of `ParserImpl` and `AnalyzerImpl`. Each method is proved to leave the stream, and return the result, that the function of the same parser predicts. The loops of `Tokens` and `Loop` are `while`/`for` loops with invariants.
- **The lexer.** It is the class `Lexing.Lexer`. Its scanning methods are proved against the functions `LineEnd`, `BlockEnd` and `SpacesEnd`.

## Model

| member | source | states |
|---|---|---|
| ParserImpl.Parse | parser/src/parser.rs:232-666 | running any parser on the stream returns, and leaves the cursor at, exactly what `Run` predicts from the old cursor |
| ParserSpec.Run | parser/src/parser.rs:232-666 | the reference meaning of every `parse`: the result and final cursor from a start position with a step budget; its properties are `ParserProps.RunWellPlaced`, `ParserProps.RunFuelMonotone` and the per-combinator lemmas below |
| ParserSpec.RunTokens | parser/src/parser.rs:514-535 | the reference meaning of the `tokens` loop; its properties are `ParserProps.RunTokensWellPlaced`, `ParserProps.TokensFullMatch` and `ParserProps.TokensFirstMismatch` |
| ParserSpec.RunLoop | parser/src/parser.rs:420-447 | the reference meaning of the `Loop` rounds; its properties are `ParserProps.RunLoopCount`, `ParserProps.RunLoopFailure`, `ParserProps.RunLoopConsecutive` and `ParserProps.RunLoopFuelMonotone` |
| ParserSpec.Many | parser/src/parser.rs:120-125 | `p.many()` is `Loop(p, None, None)`: no lower and no upper bound |
| ParserSpec.Many1 | parser/src/parser.rs:127-132 | `p.many1()` is `Loop(p, Some(1), None)` |
| ParserSpec.ManyN | parser/src/parser.rs:134-139 | `p.many_n(n)` is `Loop(p, Some(n), Some(n))` |
| ParserSpec.WithVal | parser/src/parser.rs:92-97 | `p.val(x)` is `p.with(val(x))` |
| ParserSpec.OrChain | parser/src/parser.rs:8-15 | `or!(a, b, c)` nests to the right: `a.or(b.or(c))`; one argument is that parser itself |
| ParserImpl.ParseAnyOne | parser/src/parser.rs:235-241 | result and new cursor are what `Run` gives for this combinator from the old cursor; in words: takes and consumes the current token; at the end, fails with no unexpected token and expectation `Any` |
| ParserImpl.ParseEof | parser/src/parser.rs:462-468 | result and new cursor are what `Run` gives for this combinator from the old cursor; in words: succeeds with unit iff no token remains, else fails reporting the token found; never moves |
| ParserImpl.ParseToken | parser/src/parser.rs:483-499 | result and new cursor are what `Run` gives for this combinator from the old cursor; in words: consumes one token iff it equals the wanted one, else fails at the cursor with the token found and expectation `Token(x)` |
| ParserImpl.ParseTokens | parser/src/parser.rs:514-535 | result and new cursor are what `Run` gives for this combinator from the old cursor; in words: the loop over the wanted tokens agrees with `RunTokens`: consumes matching tokens one by one and fails at the first mismatch, leaving the cursor there |
| ParserImpl.ParseExpect | parser/src/parser.rs:550-561 | result and new cursor are what `Run` gives for this combinator from the old cursor; in words: consumes the current token iff the predicate accepts it, else fails at the cursor with expectation `Unknown` |
| ParserImpl.ParseFail | parser/src/parser.rs:643-649 | result and new cursor are what `Run` gives for this combinator from the old cursor; in words: always fails at the cursor with the current token and expectation `Unknown`, without moving |
| ParserImpl.ParseMap | parser/src/parser.rs:278-280 | result and new cursor are what `Run` gives for this combinator from the old cursor; in words: applies the function to a success and passes failures through |
| ParserImpl.ParseAttempt | parser/src/parser.rs:256-263 | result and new cursor are what `Run` gives for this combinator from the old cursor; in words: on failure the cursor is restored to where the parser started |
| ParserImpl.ParseOr | parser/src/parser.rs:312-324 | result and new cursor are what `Run` gives for this combinator from the old cursor; in words: runs the second branch only when the first failed without moving the cursor |
| ParserImpl.ParseAnd | parser/src/parser.rs:339-341 | result and new cursor are what `Run` gives for this combinator from the old cursor; in words: runs both in sequence and pairs their results; the first failure is returned |
| ParserImpl.ParseWith | parser/src/parser.rs:356-359 | result and new cursor are what `Run` gives for this combinator from the old cursor; in words: runs both in sequence and keeps the second result |
| ParserImpl.ParseSkip | parser/src/parser.rs:374-378 | result and new cursor are what `Run` gives for this combinator from the old cursor; in words: runs both in sequence and keeps the first result |
| ParserImpl.ParseOptional | parser/src/parser.rs:393-405 | result and new cursor are what `Run` gives for this combinator from the old cursor; in words: a failure without consumption becomes an empty success; a failure after consumption is kept |
| ParserImpl.ParseLoop | parser/src/parser.rs:420-447 | result and new cursor are what `Run` gives for this combinator from the old cursor; in words: the counting loop agrees with `RunLoop`: stops at `max`, propagates failures below `min` or after consumption, else succeeds with what it collected |
| ParserImpl.ParseMsg | parser/src/parser.rs:582-587 | result and new cursor are what `Run` gives for this combinator from the old cursor; in words: replaces the expectation of a failure and leaves successes alone |
| ParserImpl.ParseThen | parser/src/parser.rs:606-611 | result and new cursor are what `Run` gives for this combinator from the old cursor; in words: runs the parser built from the first result at the cursor the first parser left |
| ParserProps.RunFuelMonotone | parser/src/parser.rs:232-667 | once a parser returns, giving it more steps does not change the result (the reply is the Rust one) |
| ParserProps.RunWellPlaced | parser/src/parser.rs:232-667 | the cursor never moves backwards or past the end; an error is reported at or after the final cursor, and its `unexpected` is the token at that position (none at the end) |
| ParserProps.RunTokensWellPlaced | parser/src/parser.rs:514-535 | the same placement facts for the `tokens` loop |
| ParserProps.AnyOneTakesHead | parser/src/parser.rs:235-241 | `any_one` returns the current token and advances by one, or fails at the end without moving |
| ParserProps.EofIffExhausted | parser/src/parser.rs:462-468 | `eof` succeeds iff the input is exhausted, never moves, and otherwise reports the token found |
| ParserProps.ValNeverConsumes | parser/src/parser.rs:295-297 | `val(x)` succeeds with `x` without moving |
| ParserProps.TokenCases | parser/src/parser.rs:483-499 | `token(x)`: success and one step on a match; otherwise an error naming the found token (none at the end) with the cursor unchanged |
| ParserProps.ExpectCases | parser/src/parser.rs:550-561 | `expect(f)`: one step iff `f` accepts the current token, else an `Unknown` error without moving |
| ParserProps.FailAlwaysFails | parser/src/parser.rs:643-649 | `fail` fails at the cursor without moving |
| ParserProps.TokensFullMatch | parser/src/parser.rs:514-535 | when the input continues with the wanted tokens, the loop returns them all and ends just past them |
| ParserProps.TokensFirstMismatch | parser/src/parser.rs:514-535 | on the first mismatch the loop fails there with the found token and the wanted one, the cursor left at the mismatch |
| ParserProps.TokensMatch | parser/src/parser.rs:514-535 | `tokens(xs)` on an input starting with `xs` returns them and ends `|xs|` further |
| ParserProps.TokensMismatch | parser/src/parser.rs:514-535 | `tokens(xs)` fails at the first index where the input differs, having consumed the matched prefix |
| ParserProps.AttemptRewindsOnFailure | parser/src/parser.rs:256-263 | `attempt(p)` gives `p`'s failure back at the start position, and `p`'s success unchanged |
| ParserProps.AttemptFailsCleanly | parser/src/parser.rs:256-263 | a failure of `attempt(p)` never consumed input |
| ParserProps.OrKeepsFirstSuccess | parser/src/parser.rs:312-324 | `a.or(b)` returns `a`'s success without running `b` |
| ParserProps.OrTriesSecondAfterCleanFailure | parser/src/parser.rs:312-324 | after `a` fails without consuming, `a.or(b)` is `b` from the same position |
| ParserProps.OrCommitsAfterConsuming | parser/src/parser.rs:312-324 | after `a` fails having consumed, `a.or(b)` returns that failure and does not try `b` |
| ParserProps.OrChainPicksFirstCommitted | parser/src/parser.rs:8-15 | the `or!` chain gives the result of the first alternative that succeeds or consumes (or of the last one) |
| ParserProps.OptionalCases | parser/src/parser.rs:393-405 | `optional(p)`: `Some` on success, `None` without moving on a clean failure, the failure itself after consumption |
| ParserProps.OptionalFailsOnlyAfterConsuming | parser/src/parser.rs:393-405 | a failing `optional` has always consumed input |
| ParserProps.LoopStopsAtMax | parser/src/parser.rs:420-447 | once `max` results are collected, the loop stops and succeeds without running the element parser again |
| ParserProps.LoopRoundAfterFailure | parser/src/parser.rs:420-447 | a failing round ends the loop with that failure when below `min` or after consumption, and with success otherwise |
| ParserProps.RunLoopCount | parser/src/parser.rs:420-447 | a successful loop keeps what it had collected, has at most `max` results, and fewer than `min` only when it stopped at `max` |
| ParserProps.LoopCount | parser/src/parser.rs:420-447 | the same for a whole `Loop`: at most `max` results, fewer than `min` only when `max` was reached first |
| ParserProps.ManyNExact | parser/src/parser.rs:134-139 | a successful `many_n(n)` returns exactly `n` results |
| ParserProps.ManyNCollectsConsecutive | parser/src/parser.rs:134-139 | conversely, when the element succeeds `n` times in a row, `many_n(n)` succeeds with exactly those `n` results, at the cursor after the last one |
| ParserProps.RunLoopConsecutive | parser/src/parser.rs:420-447 | a loop that meets consecutive successes collects them in order, until `max` results, ending after the last one |
| ParserProps.Many1NonEmpty | parser/src/parser.rs:127-132 | a successful `many1` returns at least one result |
| ParserProps.RunLoopFailure | parser/src/parser.rs:420-447 | a loop fails only below its minimum or after the failing round consumed input |
| ParserProps.ManyFailsOnlyAfterConsuming | parser/src/parser.rs:120-125 | `many` fails only after consuming input |
| ParserProps.ManyAcceptsNothing | parser/src/parser.rs:120-125 | when the element fails cleanly, `many` succeeds with no results and no movement |
| ParserProps.Many1RejectsNothing | parser/src/parser.rs:127-132 | when the element fails cleanly, `many1` fails with the element's error |
| ParserProps.SequencingStopsAtFirstFailure | parser/src/parser.rs:278-378 | `and`, `with`, `skip`, `then` and `map` return the first parser's failure unchanged |
| ParserProps.SequencingRunsSecondAfterFirst | parser/src/parser.rs:339-378 | after a success, `with` is the second parser from the new cursor; `and` pairs the results; `skip` keeps the first |
| ParserProps.ThenFeedsResult | parser/src/parser.rs:606-611 | `then(f)` runs `f(v)` from where the first parser stopped |
| ParserProps.MapAppliesToSuccess | parser/src/parser.rs:278-280 | `map(f)` applies `f` to the result and keeps the cursor |
| ParserProps.MsgRewritesExpecting | parser/src/parser.rs:582-587 | `msg(m)` keeps position and unexpected token of a failure and sets the expectation to `m`; successes pass through |
| ParserProps.EitherDelegates | parser/src/parser.rs:661-666 | both `Either` variants behave as the parser they hold |
| ParserProps.WithValReplacesResult | parser/src/parser.rs:92-97 | `p.val(x)` succeeds with `x` where `p` succeeds |
| ParserProps.MapTest | parser/src/parser.rs:688-700 | `token(1).map(+1)` gives 2 on `[1]` and the token error on `[2]` |
| ParserProps.AttemptTest | parser/src/parser.rs:703-715 | `tokens([1,2]).attempt()` succeeds on `[1,2]` and fails at 1 with the cursor back at 0 on `[1,3]` |
| ParserProps.AnyOneTest | parser/src/parser.rs:718-726 | `any_one` on `[1]` and on the empty input |
| ParserProps.ValTest | parser/src/parser.rs:729-731 | `val(2)` succeeds without moving |
| ParserProps.OrTest | parser/src/parser.rs:734-763 | `token(1).or(token(2))` on three inputs, and `tokens([1,2]).or(tokens([1,3]))` committing after consuming `1` |
| AnalyzerSpec.Analysis | src/analyzer.rs:92-276 | the reference meaning of every `analyze`: the answer and final cursor from a start position with a step budget; its properties are `AnalyzerProps.AnalysisCursorBounds`, `AnalyzerProps.AnalysisFuelMonotone`, `AnalyzerProps.SharedFragmentErases` and the per-combinator lemmas below |
| AnalyzerSpec.Collect | src/analyzer.rs:234-247 | the reference meaning of the collecting `for` loop; its properties are `AnalyzerProps.CollectBounds`, `AnalyzerProps.CollectRound`, `AnalyzerProps.CollectConsecutive` and `AnalyzerProps.CollectFuelMonotone` |
| AnalyzerSpec.Many | src/analyzer.rs:50-55 | `a.many()` is `Loop(a, None, None)` |
| AnalyzerSpec.Many1 | src/analyzer.rs:57-62 | `a.many1()` is `Loop(a, Some(1), None)` |
| AnalyzerSpec.ManyN | src/analyzer.rs:64-69 | `a.many_n(n)` is `Loop(a, Some(n), Some(n))` |
| AnalyzerImpl.Analyze | src/analyzer.rs:92-276 | running any analyzer on the stream gives the answer and the cursor that `Analysis` predicts |
| AnalyzerImpl.AnalyzeAnyOne | src/analyzer.rs:95-99 | result and new cursor are what `Analysis` gives for this combinator from the old cursor; in words: takes the current token and moves one step, or answers none at the end |
| AnalyzerImpl.AnalyzeEof | src/analyzer.rs:270-276 | result and new cursor are what `Analysis` gives for this combinator from the old cursor; in words: answers unit iff the stream is at its end; never moves |
| AnalyzerImpl.AnalyzeAttempt | src/analyzer.rs:113-120 | result and new cursor are what `Analysis` gives for this combinator from the old cursor; in words: restores the cursor after a negative answer |
| AnalyzerImpl.AnalyzeMap | src/analyzer.rs:134-136 | result and new cursor are what `Analysis` gives for this combinator from the old cursor; in words: applies the function to a positive answer |
| AnalyzerImpl.AnalyzeOr | src/analyzer.rs:166-171 | result and new cursor are what `Analysis` gives for this combinator from the old cursor; in words: runs the second branch after any negative answer, from the cursor the first left |
| AnalyzerImpl.AnalyzeAnd | src/analyzer.rs:185-187 | result and new cursor are what `Analysis` gives for this combinator from the old cursor; in words: pairs the two answers; none as soon as one is none |
| AnalyzerImpl.AnalyzeWith | src/analyzer.rs:201-204 | result and new cursor are what `Analysis` gives for this combinator from the old cursor; in words: keeps the second answer; none as soon as one is none |
| AnalyzerImpl.AnalyzeOptional | src/analyzer.rs:218-220 | result and new cursor are what `Analysis` gives for this combinator from the old cursor; in words: wraps the answer, so it is never none |
| AnalyzerImpl.AnalyzeLoop | src/analyzer.rs:234-256 | result and new cursor are what `Analysis` gives for this combinator from the old cursor; in words: the collecting loop agrees with `Collect`, and the minimum check is applied after it |
| AnalyzerProps.AnalysisFuelMonotone | src/analyzer.rs:92-276 | once an analyzer answers, giving it more steps does not change the answer (the answer is the Rust one) |
| AnalyzerProps.CollectFuelMonotone | src/analyzer.rs:234-247 | the same for the collecting loop |
| AnalyzerProps.AnalysisCursorBounds | src/analyzer.rs:92-276 | the cursor never moves backwards or past the end of the input |
| AnalyzerProps.CollectBounds | src/analyzer.rs:234-247 | the loop keeps what it had, collects at most `max`, and never moves the cursor back |
| AnalyzerProps.AnyOneTakesHead | src/analyzer.rs:95-99 | the current token and one step, or none at the end without moving |
| AnalyzerProps.EofIffAtEnd | src/analyzer.rs:270-276 | a positive answer iff at the end; never moves |
| AnalyzerProps.ValNeverConsumes | src/analyzer.rs:150-152 | `val(x)` answers `x` without moving |
| AnalyzerProps.AttemptRewindsOnFailure | src/analyzer.rs:113-120 | a negative answer comes back at the start position; a positive one unchanged |
| AnalyzerProps.OrRetriesWithoutRewind | src/analyzer.rs:166-171 | after the first branch answers none, `or` is the second branch from the cursor the first left behind |
| AnalyzerProps.OrKeepsFirstSuccess | src/analyzer.rs:166-171 | a positive first answer is the answer of `or` |
| AnalyzerProps.OptionalNeverFails | src/analyzer.rs:218-220 | `optional` always answers, wrapping the inner answer, and keeps the inner cursor |
| AnalyzerProps.SequencingStopsAtFailure | src/analyzer.rs:134-204 | `and`, `with` and `map` answer none where the first part does, at the cursor it left |
| AnalyzerProps.SequencingRunsSecondAfterFirst | src/analyzer.rs:134-204 | after a positive first answer: `with` is the second part, `map` applies `f`, `and` pairs |
| AnalyzerProps.CollectRound | src/analyzer.rs:236-246 | the loop stops at `max`, and at the first negative answer keeping the cursor that round left |
| AnalyzerProps.LoopFailsIffBelowMin | src/analyzer.rs:249-255 | the loop answers none exactly when it collected fewer than `min` |
| AnalyzerProps.LoopCount | src/analyzer.rs:234-256 | a positive loop answer has between `min` and `max` results, whatever `min` and `max` are |
| AnalyzerProps.ManyNExact | src/analyzer.rs:64-69 | a positive `many_n(n)` answer has exactly `n` results |
| AnalyzerProps.ManyNCollectsConsecutive | src/analyzer.rs:64-69 | conversely, when the element answers positively `n` times in a row, `many_n(n)` answers exactly those `n` results, at the cursor after the last one |
| AnalyzerProps.CollectConsecutive | src/analyzer.rs:234-247 | the collecting loop gathers consecutive positive answers in order, until `max`, ending after the last one |
| AnalyzerProps.ManyNeverFails | src/analyzer.rs:50-55 | `many` always answers |
| AnalyzerProps.SharedFragmentErases | src/analyzer.rs:92-204 | without `or`, `optional` and loops, an analyzer answers exactly the parser of the same shape with its errors forgotten |
| AnalyzerProps.OrDiffersFromParser | src/analyzer.rs:166-171 | on `[1,2]`, `any_one.with(eof).or(val(()))`: the analyzer answers from position 1, the parser commits to the `eof` error |
| AnalyzerProps.OptionalDiffersFromParser | src/analyzer.rs:218-220 | `optional` around a branch that consumed then failed: an empty answer here, the failure in the parser |
| AnalyzerProps.ManyDiffersFromParser | src/analyzer.rs:234-256 | `many` of such a branch: an empty list at position 1 here, the failure in the parser |
| AnalyzerProps.MinAboveMaxDiffersFromParser | src/analyzer.rs:234-256 | with `min` 3 and `max` 1 the analyzer answers none and the parser succeeds with one result |
| Lexing.LineEnd | src/lexer.rs:52-57 | the end of a line comment is just past the first newline at or after the start, or the end of the input |
| Lexing.BlockEnd | src/lexer.rs:68-74 | the end of a block comment is just past the first `*/` at or after the start, or the end of the input |
| Lexing.SpacesEnd | src/lexer.rs:45-47 | the first non-whitespace index at or after the start (used by the corrected `spaces`) |
| Lexing.SkipEnd | src/lexer.rs:88-93 | where `skip` (with whitespace consumed) ends: at or after the start, at most the end, on neither whitespace nor a comment opener |
| Lexing.SkipStops | src/lexer.rs:45-93 | whether `skip` as written returns: never on whitespace, so only when neither the start nor the end of any comment it passes is whitespace |
| Lexing.SkipStopsExamples | src/lexer.rs:88-93 | `skip` returns on `"x y"`, but not on `" x"` or on a line comment followed by whitespace |
| Lexing.SpacesEndIdempotent | src/lexer.rs:45-47 | skipping whitespace twice ends where skipping it once does |
| Lexing.SkipEndAfterSpaces | src/lexer.rs:88-89 | skipping whitespace before `skip` does not change where it ends |
| Lexing.SharedStarClosesBlock | src/lexer.rs:65-79 | `/*/` is a complete block comment |
| Lexing.Lexer.constructor | src/lexer.rs:10-16 | a new lexer is at position 0 |
| Lexing.Lexer.Peek | src/lexer.rs:18-20 | the character at the cursor, none at or past the end |
| Lexing.Lexer.PeekIndex | src/lexer.rs:22-24 | the character `i` places after the cursor, none past the end |
| Lexing.Lexer.Next | src/lexer.rs:26-30 | returns the current character and advances by one, or none at the end without moving; the position never passes the end |
| Lexing.Lexer.Expect | src/lexer.rs:32-37 | the current character iff the predicate accepts it; never moves |
| Lexing.Lexer.ExpectNext | src/lexer.rs:39-43 | advances by exactly one iff the predicate accepts the current character |
| Lexing.Lexer.Spaces | src/lexer.rs:45-47 | ends at once when not on whitespace and never ends on whitespace; never moves |
| Lexing.Lexer.SpacesIntended | src/lexer.rs:45-47 | with `expect_next`, ends at the first non-whitespace character |
| Lexing.Lexer.LineComment | src/lexer.rs:49-62 | on `//` ends just past the first newline (or at the end); otherwise none without moving |
| Lexing.Lexer.BlockComment | src/lexer.rs:65-79 | on `/*` ends just past the first `*/` whose `*` is after the opener's `/` (or at the end); otherwise none without moving |
| Lexing.Lexer.Comment | src/lexer.rs:81-86 | a line comment first, then a block comment; none without moving iff neither opener is at the cursor; a comment advances by at least two |
| Lexing.Lexer.Skip | src/lexer.rs:88-93 | never moves backwards; when it ends, the cursor is on neither whitespace nor a comment opener; it does not end when started on whitespace, nor when whitespace follows the line or block comment at the start; with fuel, `done` holds exactly when `SkipStops` says the Rust `skip` returns, and then the cursor is at `SkipEnd` of the start |
| Lexing.Lexer.SkipIntended | src/lexer.rs:88-93 | with the corrected `spaces`, always ends, exactly at `SkipEnd` of the start: the first position past the leading whitespace and comments |

## Left out

- `ParserFunc` and `parser_func` (parser/src/parser.rs:215-217, 615-629) wrap an arbitrary Rust function on the stream, which has no contract. No parser of this model can jump the cursor backwards, and this is why `ParserProps.RunWellPlaced` holds for all of them.
- The `Display` and `Error` impls of `ParserError` (parser/src/parser.rs:42-56) only format messages.
- The `Box`, `&A` and `&mut A` impls and `boxed` (parser/src/parser.rs:159-189) only delegate, so in a datatype of parsers they are the identity. The `PhantomData` fields carry only types.
- The free constructors `any_one`, `eof`, `val`, `token`, `tokens`, `expect` and `fail` (parser/src/parser.rs:190-221) and the `new` functions are the datatype constructors themselves.
- The `Stream` type's own source is not part of this model. `Streams.Stream` has exactly the operations the combinators use (peek, step, set/add position, end test). Its `Next` is only called after a successful peek.
- Termination: `then` builds a new parser from a result, so parsing need not terminate, and an unbounded loop over an element that succeeds without consuming runs forever. All meanings take fuel. `OutOfFuel` means the Rust code would still be running, and no property claims anything about that case.
- `usize` positions and counts are modelled as `nat`; overflow is not modelled.
- Closures (`map`, `expect`, `then`) are pure total Dafny functions; side effects inside Rust closures are not modelled.
- The lexer's `tokens` field and the `Token` type (src/lexer.rs:1, 6) are not used by any lexer operation shown, so they are not modelled.
- Lexing.Lexer.Spaces: the Rust loop never ends on whitespace; the model bounds its rounds by `fuel` and returns `false` when they run out.
- Lexing.Lexer.Skip: it takes the same `fuel` for each call of `spaces` and reports `false` when `spaces` did not end. With zero fuel it reports `false` whatever the input.
- ParserProps.LoopCount: a loop with `min` greater than `max` can succeed with fewer than `min` results, because the `max` check comes first in the Rust loop. The lemma therefore states "fewer than `min` only when `max` was reached" rather than "at least `min`". The builders `many`, `many1` and `many_n` never create such a loop.

## Findings

| source | as written | input that shows it | evidently intended | confidence | as-written member | corrected member |
|---|---|---|---|---|---|---|
| src/lexer.rs:45-47 | `spaces` repeats `expect`, which only looks at the current character, so the loop never advances | the input `" x"` at position 0: `expect` accepts the space forever, and `skip` never returns | consume whitespace with `expect_next`, so that `spaces` and `skip` end at the first character that is neither whitespace nor part of a comment | high; not executed | Lexing.Lexer.Spaces | Lexing.Lexer.SpacesIntended |
