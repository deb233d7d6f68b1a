/** What the detailed combinators promise, stated over `ParserSpec.Run`. */
module ParserProps {
  import opened Base
  import opened ParserSpec

  // ---------------------------------------------------------------------------
  // Fuel: more budget never changes an answer that was already reached.

  lemma {:induction false} RunFuelMonotone<T>(p: Parser<T>, toks: seq<T>, pos: nat, fuel: nat, more: nat)
    requires fuel <= more && Run(p, toks, pos, fuel).Returned?
    ensures Run(p, toks, pos, more) == Run(p, toks, pos, fuel)
    decreases fuel, 1
  {
    match p
    case Map(_, q) => RunFuelMonotone(q, toks, pos, fuel - 1, more - 1);
    case Attempt(q) => RunFuelMonotone(q, toks, pos, fuel - 1, more - 1);
    case Optional(q) => RunFuelMonotone(q, toks, pos, fuel - 1, more - 1);
    case Msg(q, _) => RunFuelMonotone(q, toks, pos, fuel - 1, more - 1);
    case Right(q) => RunFuelMonotone(q, toks, pos, fuel - 1, more - 1);
    case Left(q) => RunFuelMonotone(q, toks, pos, fuel - 1, more - 1);
    case Loop(q, min, max) => RunLoopFuelMonotone(q, min, max, toks, pos, [], fuel - 1, more - 1);
    case Or(a, b) =>
      RunFuelMonotone(a, toks, pos, fuel - 1, more - 1);
      if FailsCleanly(Run(a, toks, pos, fuel - 1), pos) {
        RunFuelMonotone(b, toks, pos, fuel - 1, more - 1);
      }
    case And(a, b) => SecondFuelMonotone(a, b, toks, pos, fuel, more);
    case With(a, b) => SecondFuelMonotone(a, b, toks, pos, fuel, more);
    case Skip(a, b) => SecondFuelMonotone(a, b, toks, pos, fuel, more);
    case Then(a, k) =>
      RunFuelMonotone(a, toks, pos, fuel - 1, more - 1);
      match Run(a, toks, pos, fuel - 1) {
        case Returned(Reply(Ok(v), r)) => RunFuelMonotone(k(v), toks, r, fuel - 1, more - 1);
        case _ =>
      }
    case _ =>
  }

  /** The step shared by `And`, `With` and `Skip`: the second parser starts where
      the first one stopped. */
  lemma {:induction false} SecondFuelMonotone<T>(a: Parser<T>, b: Parser<T>, toks: seq<T>, pos: nat, fuel: nat, more: nat)
    requires 0 < fuel <= more && Run(a, toks, pos, fuel - 1).Returned?
    requires Run(a, toks, pos, fuel - 1).value.result.Ok? ==>
               Run(b, toks, Run(a, toks, pos, fuel - 1).value.pos, fuel - 1).Returned?
    ensures Run(a, toks, pos, more - 1) == Run(a, toks, pos, fuel - 1)
    ensures Run(a, toks, pos, fuel - 1).value.result.Ok? ==>
              var r := Run(a, toks, pos, fuel - 1).value.pos;
              Run(b, toks, r, more - 1) == Run(b, toks, r, fuel - 1)
    decreases fuel, 0
  {
    RunFuelMonotone(a, toks, pos, fuel - 1, more - 1);
    if Run(a, toks, pos, fuel - 1).value.result.Ok? {
      RunFuelMonotone(b, toks, Run(a, toks, pos, fuel - 1).value.pos, fuel - 1, more - 1);
    }
  }

  lemma {:induction false} RunLoopFuelMonotone<T>(q: Parser<T>, min: Option<nat>, max: Option<nat>, toks: seq<T>,
                                                     pos: nat, acc: seq<Value<T>>, fuel: nat, more: nat)
    requires fuel <= more && RunLoop(q, min, max, toks, pos, acc, fuel).Returned?
    ensures RunLoop(q, min, max, toks, pos, acc, more) == RunLoop(q, min, max, toks, pos, acc, fuel)
    decreases fuel, 0
  {
    if !(max.Some? && |acc| >= max.value) {
      RunFuelMonotone(q, toks, pos, fuel - 1, more - 1);
      match Run(q, toks, pos, fuel - 1)
      case Returned(Reply(Ok(v), r)) => RunLoopFuelMonotone(q, min, max, toks, r, acc + [v], fuel - 1, more - 1);
      case _ =>
    }
  }

  // ---------------------------------------------------------------------------
  // Where the cursor and the error can be: the "leave the breadcrumb" contract.

  /** A reply to a call that started at `start`: the cursor never moved back past
      `start` nor beyond the end, and a failure is reported at or after the final
      cursor and names the token actually found at its position. */
  ghost predicate WellPlaced<T>(toks: seq<T>, start: nat, rep: Reply<T>)
  {
    && start <= rep.pos <= |toks|
    && (rep.result.Err? ==>
          && rep.pos <= rep.result.error.pos <= |toks|
          && rep.result.error.unexpected == TokenAt(toks, rep.result.error.pos))
  }

  lemma {:induction false} RunWellPlaced<T>(p: Parser<T>, toks: seq<T>, pos: nat, fuel: nat)
    requires pos <= |toks|
    ensures Run(p, toks, pos, fuel).Returned? ==> WellPlaced(toks, pos, Run(p, toks, pos, fuel).value)
    decreases fuel, 1
  {
    if fuel > 0 {
      match p
      case Tokens(xs) => RunTokensWellPlaced(xs, toks, pos, []);
      case Map(_, q) => RunWellPlaced(q, toks, pos, fuel - 1);
      case Attempt(q) => RunWellPlaced(q, toks, pos, fuel - 1);
      case Optional(q) => RunWellPlaced(q, toks, pos, fuel - 1);
      case Msg(q, _) => RunWellPlaced(q, toks, pos, fuel - 1);
      case Right(q) => RunWellPlaced(q, toks, pos, fuel - 1);
      case Left(q) => RunWellPlaced(q, toks, pos, fuel - 1);
      case Loop(q, min, max) => RunLoopWellPlaced(q, min, max, toks, pos, [], fuel - 1);
      case Or(a, b) => RunWellPlaced(a, toks, pos, fuel - 1); RunWellPlaced(b, toks, pos, fuel - 1);
      case And(a, b) => SecondWellPlaced(a, b, toks, pos, fuel);
      case With(a, b) => SecondWellPlaced(a, b, toks, pos, fuel);
      case Skip(a, b) => SecondWellPlaced(a, b, toks, pos, fuel);
      case Then(a, k) =>
        RunWellPlaced(a, toks, pos, fuel - 1);
        match Run(a, toks, pos, fuel - 1) {
          case Returned(Reply(Ok(v), r)) => RunWellPlaced(k(v), toks, r, fuel - 1);
          case _ =>
        }
      case _ =>
    }
  }

  lemma {:induction false} SecondWellPlaced<T>(a: Parser<T>, b: Parser<T>, toks: seq<T>, pos: nat, fuel: nat)
    requires 0 < fuel && pos <= |toks|
    ensures Run(a, toks, pos, fuel - 1).Returned? ==> WellPlaced(toks, pos, Run(a, toks, pos, fuel - 1).value)
    ensures Run(a, toks, pos, fuel - 1).Returned? && Run(a, toks, pos, fuel - 1).value.result.Ok? ==>
              var r := Run(a, toks, pos, fuel - 1).value.pos;
              Run(b, toks, r, fuel - 1).Returned? ==> WellPlaced(toks, pos, Run(b, toks, r, fuel - 1).value)
    decreases fuel, 0
  {
    RunWellPlaced(a, toks, pos, fuel - 1);
    if Run(a, toks, pos, fuel - 1).Returned? && Run(a, toks, pos, fuel - 1).value.result.Ok? {
      RunWellPlaced(b, toks, Run(a, toks, pos, fuel - 1).value.pos, fuel - 1);
    }
  }

  lemma {:induction false} RunLoopWellPlaced<T>(q: Parser<T>, min: Option<nat>, max: Option<nat>, toks: seq<T>,
                                               pos: nat, acc: seq<Value<T>>, fuel: nat)
    requires pos <= |toks|
    ensures RunLoop(q, min, max, toks, pos, acc, fuel).Returned? ==>
              WellPlaced(toks, pos, RunLoop(q, min, max, toks, pos, acc, fuel).value)
    decreases fuel, 0
  {
    if !(max.Some? && |acc| >= max.value) && fuel > 0 {
      RunWellPlaced(q, toks, pos, fuel - 1);
      match Run(q, toks, pos, fuel - 1)
      case Returned(Reply(Ok(v), r)) => RunLoopWellPlaced(q, min, max, toks, r, acc + [v], fuel - 1);
      case _ =>
    }
  }

  lemma {:induction false} RunTokensWellPlaced<T>(xs: seq<T>, toks: seq<T>, pos: nat, acc: seq<Value<T>>)
    requires pos <= |toks|
    ensures WellPlaced(toks, pos, RunTokens(xs, toks, pos, acc))
    decreases |xs|
  {
    if xs != [] && pos < |toks| && xs[0] == toks[pos] {
      RunTokensWellPlaced(xs[1..], toks, pos + 1, acc + [Tok(toks[pos])]);
    }
  }

  // ---------------------------------------------------------------------------
  // Primitives.

  lemma AnyOneTakesHead<T>(toks: seq<T>, pos: nat, fuel: nat)
    requires fuel > 0
    ensures pos < |toks| ==> Run(AnyOne, toks, pos, fuel) == Returned(Reply(Ok(Tok(toks[pos])), pos + 1))
    ensures |toks| <= pos ==> Run(AnyOne, toks, pos, fuel) == Returned(Reply(Err(ParserError(pos, None, Any)), pos))
  {
  }

  lemma EofIffExhausted<T>(toks: seq<T>, pos: nat, fuel: nat)
    requires fuel > 0
    ensures Run(Parser.Eof, toks, pos, fuel).Returned?
    ensures Run(Parser.Eof, toks, pos, fuel).value.pos == pos
    ensures Run(Parser.Eof, toks, pos, fuel).value.result.Ok? <==> |toks| <= pos
    ensures pos < |toks| ==>
              Run(Parser.Eof, toks, pos, fuel).value.result.error == ParserError(pos, Some(toks[pos]), ErrorExpect.Eof)
  {
  }

  lemma ValNeverConsumes<T>(v: Value<T>, toks: seq<T>, pos: nat, fuel: nat)
    requires fuel > 0
    ensures Run(Val(v), toks, pos, fuel) == Returned(Reply(Ok(v), pos))
  {
  }

  lemma TokenCases<T>(x: T, toks: seq<T>, pos: nat, fuel: nat)
    requires fuel > 0
    ensures pos < |toks| && toks[pos] == x ==>
              Run(Parser.Token(x), toks, pos, fuel) == Returned(Reply(Ok(Tok(x)), pos + 1))
    ensures pos < |toks| && toks[pos] != x ==>
              Run(Parser.Token(x), toks, pos, fuel)
                == Returned(Reply(Err(ParserError(pos, Some(toks[pos]), ErrorExpect.Token(x))), pos))
    ensures |toks| <= pos ==>
              Run(Parser.Token(x), toks, pos, fuel)
                == Returned(Reply(Err(ParserError(pos, None, ErrorExpect.Token(x))), pos))
  {
  }

  lemma ExpectCases<T>(pred: T -> bool, toks: seq<T>, pos: nat, fuel: nat)
    requires fuel > 0
    ensures pos < |toks| && pred(toks[pos]) ==>
              Run(Expect(pred), toks, pos, fuel) == Returned(Reply(Ok(Tok(toks[pos])), pos + 1))
    ensures !(pos < |toks| && pred(toks[pos])) ==>
              Run(Expect(pred), toks, pos, fuel)
                == Returned(Reply(Err(ParserError(pos, TokenAt(toks, pos), Unknown)), pos))
  {
  }

  lemma FailAlwaysFails<T>(toks: seq<T>, pos: nat, fuel: nat)
    requires fuel > 0
    ensures Run(Fail, toks, pos, fuel) == Returned(Reply(Err(ParserError(pos, TokenAt(toks, pos), Unknown)), pos))
  {
  }

  // ---------------------------------------------------------------------------
  // Tokens: a full match, or a failure at the first mismatch with the cursor
  // left there.

  lemma {:induction false} TokensFullMatch<T>(xs: seq<T>, toks: seq<T>, pos: nat, acc: seq<Value<T>>)
    requires pos + |xs| <= |toks| && toks[pos..pos + |xs|] == xs
    ensures RunTokens(xs, toks, pos, acc) == Reply(Ok(List(acc + Toks(xs))), pos + |xs|)
    decreases |xs|
  {
    if xs == [] {
      assert acc + Toks(xs) == acc;
    } else {
      assert toks[pos] == toks[pos..pos + |xs|][0];
      assert toks[pos + 1..pos + 1 + |xs[1..]|] == toks[pos..pos + |xs|][1..];
      TokensFullMatch(xs[1..], toks, pos + 1, acc + [Tok(xs[0])]);
      assert Toks(xs) == [Tok(xs[0])] + Toks(xs[1..]);
      assert acc + [Tok(xs[0])] + Toks(xs[1..]) == acc + Toks(xs);
    }
  }

  lemma {:induction false} TokensFirstMismatch<T>(xs: seq<T>, toks: seq<T>, pos: nat, acc: seq<Value<T>>, i: nat)
    requires i < |xs| && pos + i <= |toks| && toks[pos..pos + i] == xs[..i]
    requires TokenAt(toks, pos + i) != Some(xs[i])
    ensures RunTokens(xs, toks, pos, acc)
              == Reply(Err(ParserError(pos + i, TokenAt(toks, pos + i), ErrorExpect.Token(xs[i]))), pos + i)
    decreases i
  {
    if i > 0 {
      assert toks[pos] == toks[pos..pos + i][0] == xs[0];
      assert toks[pos + 1..pos + 1 + (i - 1)] == toks[pos..pos + i][1..];
      assert xs[1..][..i - 1] == xs[..i][1..];
      TokensFirstMismatch(xs[1..], toks, pos + 1, acc + [Tok(xs[0])], i - 1);
    }
  }

  lemma TokensMatch<T>(xs: seq<T>, toks: seq<T>, pos: nat, fuel: nat)
    requires fuel > 0 && pos + |xs| <= |toks| && toks[pos..pos + |xs|] == xs
    ensures Run(Tokens(xs), toks, pos, fuel) == Returned(Reply(Ok(List(Toks(xs))), pos + |xs|))
  {
    TokensFullMatch(xs, toks, pos, []);
    assert [] + Toks(xs) == Toks(xs);
  }

  lemma TokensMismatch<T>(xs: seq<T>, toks: seq<T>, pos: nat, fuel: nat, i: nat)
    requires fuel > 0 && i < |xs| && pos + i <= |toks| && toks[pos..pos + i] == xs[..i]
    requires TokenAt(toks, pos + i) != Some(xs[i])
    ensures Run(Tokens(xs), toks, pos, fuel)
              == Returned(Reply(Err(ParserError(pos + i, TokenAt(toks, pos + i), ErrorExpect.Token(xs[i]))), pos + i))
  {
    TokensFirstMismatch(xs, toks, pos, [], i);
  }

  // ---------------------------------------------------------------------------
  // Attempt.

  lemma AttemptRewindsOnFailure<T>(q: Parser<T>, toks: seq<T>, pos: nat, fuel: nat)
    requires fuel > 0
    ensures var o := Run(q, toks, pos, fuel - 1);
            o.Returned? && o.value.result.Err? ==>
              Run(Attempt(q), toks, pos, fuel) == Returned(Reply(o.value.result, pos))
    ensures var o := Run(q, toks, pos, fuel - 1);
            !(o.Returned? && o.value.result.Err?) ==> Run(Attempt(q), toks, pos, fuel) == o
  {
  }

  /** However far `q` got before failing, `attempt(q)` fails cleanly. */
  lemma AttemptFailsCleanly<T>(q: Parser<T>, toks: seq<T>, pos: nat, fuel: nat)
    requires Run(Attempt(q), toks, pos, fuel).Returned? && Run(Attempt(q), toks, pos, fuel).value.result.Err?
    ensures FailsCleanly(Run(Attempt(q), toks, pos, fuel), pos)
  {
  }

  // ---------------------------------------------------------------------------
  // Or: the second branch runs only after a failure that did not move the cursor.

  lemma OrKeepsFirstSuccess<T>(a: Parser<T>, b: Parser<T>, toks: seq<T>, pos: nat, fuel: nat)
    requires fuel > 0 && Run(a, toks, pos, fuel - 1).Returned? && Run(a, toks, pos, fuel - 1).value.result.Ok?
    ensures Run(Or(a, b), toks, pos, fuel) == Run(a, toks, pos, fuel - 1)
  {
  }

  lemma OrTriesSecondAfterCleanFailure<T>(a: Parser<T>, b: Parser<T>, toks: seq<T>, pos: nat, fuel: nat)
    requires fuel > 0 && FailsCleanly(Run(a, toks, pos, fuel - 1), pos)
    ensures Run(Or(a, b), toks, pos, fuel) == Run(b, toks, pos, fuel - 1)
  {
  }

  /** A failure after consuming input is final: the result does not depend on `b`. */
  lemma OrCommitsAfterConsuming<T>(a: Parser<T>, b: Parser<T>, toks: seq<T>, pos: nat, fuel: nat)
    requires fuel > 0 && Run(a, toks, pos, fuel - 1).Returned?
    requires Run(a, toks, pos, fuel - 1).value.result.Err? && Run(a, toks, pos, fuel - 1).value.pos != pos
    ensures Run(Or(a, b), toks, pos, fuel) == Run(a, toks, pos, fuel - 1)
  {
  }

  /** `or!(p0, ..., pn)` answers like the first alternative that does not fail
      cleanly (or like the last one). */
  lemma {:induction false} OrChainPicksFirstCommitted<T>(ps: seq<Parser<T>>, toks: seq<T>, pos: nat, fuel: nat, i: nat)
    requires i < |ps|
    requires forall j :: 0 <= j < i ==> FailsCleanly(Run(ps[j], toks, pos, fuel), pos)
    requires Run(ps[i], toks, pos, fuel).Returned?
    requires i == |ps| - 1 || !FailsCleanly(Run(ps[i], toks, pos, fuel), pos)
    ensures Run(OrChain(ps), toks, pos, fuel + |ps|) == Run(ps[i], toks, pos, fuel)
    decreases i
  {
    if |ps| == 1 {
      RunFuelMonotone(ps[0], toks, pos, fuel, fuel + 1);
    } else {
      if i == 0 {
        RunFuelMonotone(ps[0], toks, pos, fuel, fuel + |ps| - 1);
      } else {
        assert FailsCleanly(Run(ps[0], toks, pos, fuel), pos);
        RunFuelMonotone(ps[0], toks, pos, fuel, fuel + |ps| - 1);
        forall j | 0 <= j < i - 1
          ensures FailsCleanly(Run(ps[1..][j], toks, pos, fuel), pos)
        {
          assert ps[1..][j] == ps[j + 1];
        }
        OrChainPicksFirstCommitted(ps[1..], toks, pos, fuel, i - 1);
      }
    }
  }

  // ---------------------------------------------------------------------------
  // Optional.

  lemma OptionalCases<T>(q: Parser<T>, toks: seq<T>, pos: nat, fuel: nat)
    requires fuel > 0
    ensures var o := Run(q, toks, pos, fuel - 1);
            o.Returned? && o.value.result.Ok? ==>
              Run(Optional(q), toks, pos, fuel) == Returned(Reply(Ok(Opt(Some(o.value.result.value))), o.value.pos))
    ensures FailsCleanly(Run(q, toks, pos, fuel - 1), pos) ==>
              Run(Optional(q), toks, pos, fuel) == Returned(Reply(Ok(Opt(None)), pos))
    ensures var o := Run(q, toks, pos, fuel - 1);
            o.Returned? && o.value.result.Err? && o.value.pos != pos ==> Run(Optional(q), toks, pos, fuel) == o
  {
  }

  /** `optional` fails only after its parser consumed input. */
  lemma OptionalFailsOnlyAfterConsuming<T>(q: Parser<T>, toks: seq<T>, pos: nat, fuel: nat)
    requires pos <= |toks|
    ensures var o := Run(Optional(q), toks, pos, fuel);
            o.Returned? && o.value.result.Err? ==> pos < o.value.pos
  {
    if fuel > 0 {
      RunWellPlaced(q, toks, pos, fuel - 1);
    }
  }

  // ---------------------------------------------------------------------------
  // Loop and its builders `many`, `many1`, `many_n`.

  /** Once `max` results are collected the element parser is not run again: the
      answer is the same for every element parser and every budget. */
  lemma LoopStopsAtMax<T>(q: Parser<T>, min: Option<nat>, max: Option<nat>, toks: seq<T>,
                          pos: nat, acc: seq<Value<T>>, fuel: nat)
    requires max.Some? && |acc| >= max.value
    ensures RunLoop(q, min, max, toks, pos, acc, fuel) == Returned(Reply(Ok(List(acc)), pos))
  {
  }

  /** One round of the loop, after the element parser failed. */
  lemma LoopRoundAfterFailure<T>(q: Parser<T>, min: Option<nat>, max: Option<nat>, toks: seq<T>,
                                 pos: nat, acc: seq<Value<T>>, fuel: nat, e: ParserError<T>, r: nat)
    requires !(max.Some? && |acc| >= max.value) && fuel > 0
    requires Run(q, toks, pos, fuel - 1) == Returned(Reply(Err(e), r))
    ensures min.Some? && |acc| < min.value ==>
              RunLoop(q, min, max, toks, pos, acc, fuel) == Returned(Reply(Err(e), r))
    ensures r != pos ==> RunLoop(q, min, max, toks, pos, acc, fuel) == Returned(Reply(Err(e), r))
    ensures !(min.Some? && |acc| < min.value) && r == pos ==>
              RunLoop(q, min, max, toks, pos, acc, fuel) == Returned(Reply(Ok(List(acc)), pos))
  {
  }

  /** A successful loop returns the results collected so far followed by new ones,
      never more than `max`, and fewer than `min` only when it stopped at `max`. */
  lemma {:induction false} RunLoopCount<T>(q: Parser<T>, min: Option<nat>, max: Option<nat>, toks: seq<T>,
                                          pos: nat, acc: seq<Value<T>>, fuel: nat)
    requires max.Some? ==> |acc| <= max.value
    ensures var o := RunLoop(q, min, max, toks, pos, acc, fuel);
            o.Returned? && o.value.result.Ok? ==>
              && o.value.result.value.List?
              && acc <= o.value.result.value.items
              && (max.Some? ==> |o.value.result.value.items| <= max.value)
              && (min.Some? && |o.value.result.value.items| < min.value ==>
                    max.Some? && |o.value.result.value.items| == max.value)
    decreases fuel
  {
    if !(max.Some? && |acc| >= max.value) && fuel > 0 {
      match Run(q, toks, pos, fuel - 1)
      case Returned(Reply(Ok(v), r)) => RunLoopCount(q, min, max, toks, r, acc + [v], fuel - 1);
      case _ =>
    }
  }

  lemma LoopCount<T>(q: Parser<T>, min: Option<nat>, max: Option<nat>, toks: seq<T>, pos: nat, fuel: nat)
    ensures var o := Run(Loop(q, min, max), toks, pos, fuel);
            o.Returned? && o.value.result.Ok? ==>
              && o.value.result.value.List?
              && (max.Some? ==> |o.value.result.value.items| <= max.value)
              && (min.Some? && |o.value.result.value.items| < min.value ==>
                    max.Some? && |o.value.result.value.items| == max.value)
  {
    if fuel > 0 {
      RunLoopCount(q, min, max, toks, pos, [], fuel - 1);
    }
  }

  /** `many_n(n)` either fails or returns exactly `n` results. */
  lemma ManyNExact<T>(q: Parser<T>, n: nat, toks: seq<T>, pos: nat, fuel: nat)
    ensures var o := Run(ManyN(q, n), toks, pos, fuel);
            o.Returned? && o.value.result.Ok? ==>
              o.value.result.value.List? && |o.value.result.value.items| == n
  {
    LoopCount(q, Some(n), Some(n), toks, pos, fuel);
  }

  /** The loop collects consecutive successes: `vs[j]` parsed from `ps[j]` and
      ending at `ps[j + 1]`, until `max` is reached. */
  lemma {:induction false} RunLoopConsecutive<T>(q: Parser<T>, min: Option<nat>, max: nat, toks: seq<T>, ps: seq<nat>,
                                                vs: seq<Value<T>>, acc: seq<Value<T>>, fuel: nat)
    requires |ps| == |vs| + 1 && |acc| + |vs| == max
    requires forall j :: 0 <= j < |vs| ==> Run(q, toks, ps[j], fuel) == Returned(Reply(Ok(vs[j]), ps[j + 1]))
    ensures RunLoop(q, min, Some(max), toks, ps[0], acc, fuel + |vs|) == Returned(Reply(Ok(List(acc + vs)), ps[|vs|]))
    decreases |vs|
  {
    if |vs| == 0 {
      assert acc + vs == acc;
    } else {
      assert Run(q, toks, ps[0], fuel) == Returned(Reply(Ok(vs[0]), ps[1]));
      RunFuelMonotone(q, toks, ps[0], fuel, fuel + |vs| - 1);
      RunLoopConsecutive(q, min, max, toks, ps[1..], vs[1..], acc + [vs[0]], fuel);
      assert acc + [vs[0]] + vs[1..] == acc + vs;
    }
  }

  /** Conversely to `ManyNExact`: `n` consecutive successes make `many_n(n)`
      succeed with exactly those results, at the cursor after the last one. */
  lemma ManyNCollectsConsecutive<T>(q: Parser<T>, n: nat, toks: seq<T>, ps: seq<nat>, vs: seq<Value<T>>, fuel: nat)
    requires |ps| == n + 1 && |vs| == n
    requires forall j :: 0 <= j < n ==> Run(q, toks, ps[j], fuel) == Returned(Reply(Ok(vs[j]), ps[j + 1]))
    ensures Run(ManyN(q, n), toks, ps[0], fuel + n + 1) == Returned(Reply(Ok(List(vs)), ps[n]))
  {
    RunLoopConsecutive(q, Some(n), n, toks, ps, vs, [], fuel);
    assert [] + vs == vs;
  }

  /** A successful `many1` returns at least one result. */
  lemma Many1NonEmpty<T>(q: Parser<T>, toks: seq<T>, pos: nat, fuel: nat)
    ensures var o := Run(Many1(q), toks, pos, fuel);
            o.Returned? && o.value.result.Ok? ==>
              o.value.result.value.List? && |o.value.result.value.items| >= 1
  {
    LoopCount(q, Some(1), None, toks, pos, fuel);
  }

  /** A loop fails only below its minimum, or after the failing round consumed input. */
  lemma {:induction false} RunLoopFailure<T>(q: Parser<T>, min: Option<nat>, max: Option<nat>, toks: seq<T>,
                                            pos: nat, acc: seq<Value<T>>, fuel: nat)
    requires pos <= |toks|
    ensures var o := RunLoop(q, min, max, toks, pos, acc, fuel);
            o.Returned? && o.value.result.Err? ==> pos < o.value.pos || (min.Some? && |acc| < min.value)
    decreases fuel
  {
    if !(max.Some? && |acc| >= max.value) && fuel > 0 {
      RunWellPlaced(q, toks, pos, fuel - 1);
      match Run(q, toks, pos, fuel - 1)
      case Returned(Reply(Ok(v), r)) => RunLoopFailure(q, min, max, toks, r, acc + [v], fuel - 1);
      case _ =>
    }
  }

  /** `many` never fails on an element that fails cleanly: it fails only after
      input was consumed. */
  lemma ManyFailsOnlyAfterConsuming<T>(q: Parser<T>, toks: seq<T>, pos: nat, fuel: nat)
    requires pos <= |toks|
    ensures var o := Run(Many(q), toks, pos, fuel);
            o.Returned? && o.value.result.Err? ==> pos < o.value.pos
  {
    if fuel > 0 {
      RunLoopFailure(q, None, None, toks, pos, [], fuel - 1);
    }
  }

  lemma ManyAcceptsNothing<T>(q: Parser<T>, toks: seq<T>, pos: nat, fuel: nat)
    requires fuel >= 2 && FailsCleanly(Run(q, toks, pos, fuel - 2), pos)
    ensures Run(Many(q), toks, pos, fuel) == Returned(Reply(Ok(List([])), pos))
  {
  }

  lemma Many1RejectsNothing<T>(q: Parser<T>, toks: seq<T>, pos: nat, fuel: nat)
    requires fuel >= 2 && FailsCleanly(Run(q, toks, pos, fuel - 2), pos)
    ensures Run(Many1(q), toks, pos, fuel) == Run(q, toks, pos, fuel - 2)
  {
  }

  // ---------------------------------------------------------------------------
  // Sequencing, map, then, msg, either.

  /** `and`, `with`, `skip`, `then` and `map` return the first parser's error
      unchanged, with the cursor where it failed. */
  lemma SequencingStopsAtFirstFailure<T>(a: Parser<T>, b: Parser<T>, k: Value<T> -> Parser<T>, f: Value<T> -> Value<T>,
                                         toks: seq<T>, pos: nat, fuel: nat, e: ParserError<T>, r: nat)
    requires fuel > 0 && Run(a, toks, pos, fuel - 1) == Returned(Reply(Err(e), r))
    ensures Run(And(a, b), toks, pos, fuel) == Returned(Reply(Err(e), r))
    ensures Run(With(a, b), toks, pos, fuel) == Returned(Reply(Err(e), r))
    ensures Run(Skip(a, b), toks, pos, fuel) == Returned(Reply(Err(e), r))
    ensures Run(Then(a, k), toks, pos, fuel) == Returned(Reply(Err(e), r))
    ensures Run(Map(f, a), toks, pos, fuel) == Returned(Reply(Err(e), r))
  {
  }

  /** After the first parser succeeded, the second one runs from where it stopped;
      its error is returned unchanged, and its success is combined. */
  lemma SequencingRunsSecondAfterFirst<T>(a: Parser<T>, b: Parser<T>, toks: seq<T>, pos: nat, fuel: nat, v: Value<T>, r: nat)
    requires fuel > 0 && Run(a, toks, pos, fuel - 1) == Returned(Reply(Ok(v), r))
    ensures Run(With(a, b), toks, pos, fuel) == Run(b, toks, r, fuel - 1)
    ensures var o := Run(b, toks, r, fuel - 1);
            o.Returned? && o.value.result.Err? ==>
              Run(And(a, b), toks, pos, fuel) == o && Run(Skip(a, b), toks, pos, fuel) == o
    ensures var o := Run(b, toks, r, fuel - 1);
            o.Returned? && o.value.result.Ok? ==>
              && Run(And(a, b), toks, pos, fuel) == Returned(Reply(Ok(Pair(v, o.value.result.value)), o.value.pos))
              && Run(Skip(a, b), toks, pos, fuel) == Returned(Reply(Ok(v), o.value.pos))
  {
  }

  /** `then(k)` feeds the first result to `k` and runs the parser it builds from
      the current cursor. */
  lemma ThenFeedsResult<T>(a: Parser<T>, k: Value<T> -> Parser<T>, toks: seq<T>, pos: nat, fuel: nat, v: Value<T>, r: nat)
    requires fuel > 0 && Run(a, toks, pos, fuel - 1) == Returned(Reply(Ok(v), r))
    ensures Run(Then(a, k), toks, pos, fuel) == Run(k(v), toks, r, fuel - 1)
  {
  }

  lemma MapAppliesToSuccess<T>(f: Value<T> -> Value<T>, a: Parser<T>, toks: seq<T>, pos: nat, fuel: nat, v: Value<T>, r: nat)
    requires fuel > 0 && Run(a, toks, pos, fuel - 1) == Returned(Reply(Ok(v), r))
    ensures Run(Map(f, a), toks, pos, fuel) == Returned(Reply(Ok(f(v)), r))
  {
  }

  /** `msg(m)` rewrites only the `expecting` field of a failure. */
  lemma MsgRewritesExpecting<T>(a: Parser<T>, m: ErrorExpect<T>, toks: seq<T>, pos: nat, fuel: nat)
    requires fuel > 0
    ensures var o := Run(a, toks, pos, fuel - 1);
            o.Returned? && o.value.result.Err? ==>
              var e := o.value.result.error;
              Run(Msg(a, m), toks, pos, fuel) == Returned(Reply(Err(ParserError(e.pos, e.unexpected, m)), o.value.pos))
    ensures var o := Run(a, toks, pos, fuel - 1);
            !(o.Returned? && o.value.result.Err?) ==> Run(Msg(a, m), toks, pos, fuel) == o
  {
  }

  lemma EitherDelegates<T>(a: Parser<T>, toks: seq<T>, pos: nat, fuel: nat)
    requires fuel > 0
    ensures Run(Right(a), toks, pos, fuel) == Run(a, toks, pos, fuel - 1)
    ensures Run(Left(a), toks, pos, fuel) == Run(a, toks, pos, fuel - 1)
  {
  }

  /** `p.val(x)` answers `x` wherever `p` succeeds. */
  lemma WithValReplacesResult<T>(a: Parser<T>, x: Value<T>, toks: seq<T>, pos: nat, fuel: nat, v: Value<T>, r: nat)
    requires fuel >= 2 && Run(a, toks, pos, fuel - 1) == Returned(Reply(Ok(v), r))
    ensures Run(WithVal(a, x), toks, pos, fuel) == Returned(Reply(Ok(x), r))
  {
  }

  // ---------------------------------------------------------------------------
  // The source's own test cases.

  function Inc(v: Value<int>): (res: Value<int>)
  {
    if v.Tok? then Tok(v.tok + 1) else v
  }

  lemma MapTest()
    ensures Run(Map(Inc, Parser.Token(1)), [1], 0, 2) == Returned(Reply(Ok(Tok(2)), 1))
    ensures Run(Map(Inc, Parser.Token(1)), [2], 0, 2)
              == Returned(Reply(Err(ParserError(0, Some(2), ErrorExpect.Token(1))), 0))
  {
  }

  lemma AttemptTest()
    ensures Run(Attempt(Tokens([1, 2])), [1, 2], 0, 2) == Returned(Reply(Ok(List([Tok(1), Tok(2)])), 2))
    ensures Run(Attempt(Tokens([1, 2])), [1, 3], 0, 2)
              == Returned(Reply(Err(ParserError(1, Some(3), ErrorExpect.Token(2))), 0))
  {
    TokensMatch([1, 2], [1, 2], 0, 1);
    assert Toks([1, 2]) == [Tok(1), Tok(2)];
    TokensMismatch([1, 2], [1, 3], 0, 1, 1);
  }

  lemma AnyOneTest()
    ensures Run(AnyOne, [1], 0, 1) == Returned(Reply(Ok(Tok(1)), 1))
    ensures Run<int>(AnyOne, [], 0, 1) == Returned(Reply(Err(ParserError(0, None, Any)), 0))
  {
  }

  lemma ValTest()
    ensures Run(Val(Tok(2)), [1], 0, 1) == Returned(Reply(Ok(Tok(2)), 0))
  {
  }

  lemma OrTest()
    ensures Run(Or(Parser.Token(1), Parser.Token(2)), [1], 0, 2) == Returned(Reply(Ok(Tok(1)), 1))
    ensures Run(Or(Parser.Token(1), Parser.Token(2)), [2], 0, 2) == Returned(Reply(Ok(Tok(2)), 1))
    ensures Run(Or(Parser.Token(1), Parser.Token(2)), [3], 0, 2)
              == Returned(Reply(Err(ParserError(0, Some(3), ErrorExpect.Token(2))), 0))
    ensures Run(Or(Tokens([1, 2]), Tokens([1, 3])), [1, 3], 0, 2)
              == Returned(Reply(Err(ParserError(1, Some(3), ErrorExpect.Token(2))), 1))
    ensures Run(Or(Tokens([1, 2]), Tokens([1, 3])), [1, 1, 3], 0, 2)
              == Returned(Reply(Err(ParserError(1, Some(1), ErrorExpect.Token(2))), 1))
  {
    TokensMismatch([1, 2], [1, 3], 0, 1, 1);
    TokensMismatch([1, 2], [1, 1, 3], 0, 1, 1);
  }
}
