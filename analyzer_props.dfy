/** What the simplified combinators promise, stated over `AnalyzerSpec.Analysis`,
    and how they relate to the detailed ones of `ParserSpec`. */
module AnalyzerProps {
  import opened Base
  import opened AnalyzerSpec
  import P = ParserSpec

  // ---------------------------------------------------------------------------
  // Fuel: more budget never changes an answer that was already reached.

  lemma {:induction false} AnalysisFuelMonotone<T>(a: Analyzer<T>, toks: seq<T>, pos: nat, fuel: nat, more: nat)
    requires fuel <= more && Analysis(a, toks, pos, fuel).Returned?
    ensures Analysis(a, toks, pos, more) == Analysis(a, toks, pos, fuel)
    decreases fuel, 1
  {
    match a
    case Attempt(q) => AnalysisFuelMonotone(q, toks, pos, fuel - 1, more - 1);
    case Map(_, q) => AnalysisFuelMonotone(q, toks, pos, fuel - 1, more - 1);
    case Optional(q) => AnalysisFuelMonotone(q, toks, pos, fuel - 1, more - 1);
    case Loop(q, _, max) => CollectFuelMonotone(q, max, toks, pos, [], fuel - 1, more - 1);
    case Or(q, b) =>
      AnalysisFuelMonotone(q, toks, pos, fuel - 1, more - 1);
      match Analysis(q, toks, pos, fuel - 1) {
        case Returned(Reply(None, r)) => AnalysisFuelMonotone(b, toks, r, fuel - 1, more - 1);
        case _ =>
      }
    case And(q, b) =>
      AnalysisFuelMonotone(q, toks, pos, fuel - 1, more - 1);
      match Analysis(q, toks, pos, fuel - 1) {
        case Returned(Reply(Some(_), r)) => AnalysisFuelMonotone(b, toks, r, fuel - 1, more - 1);
        case _ =>
      }
    case With(q, b) =>
      AnalysisFuelMonotone(q, toks, pos, fuel - 1, more - 1);
      match Analysis(q, toks, pos, fuel - 1) {
        case Returned(Reply(Some(_), r)) => AnalysisFuelMonotone(b, toks, r, fuel - 1, more - 1);
        case _ =>
      }
    case _ =>
  }

  lemma {:induction false} CollectFuelMonotone<T>(q: Analyzer<T>, max: Option<nat>, toks: seq<T>, pos: nat,
                                                 acc: seq<Value<T>>, fuel: nat, more: nat)
    requires fuel <= more && Collect(q, max, toks, pos, acc, fuel).Returned?
    ensures Collect(q, max, toks, pos, acc, more) == Collect(q, max, toks, pos, acc, fuel)
    decreases fuel, 0
  {
    if !(max.Some? && |acc| >= max.value) {
      AnalysisFuelMonotone(q, toks, pos, fuel - 1, more - 1);
      match Analysis(q, toks, pos, fuel - 1)
      case Returned(Reply(Some(v), r)) => CollectFuelMonotone(q, max, toks, r, acc + [v], fuel - 1, more - 1);
      case _ =>
    }
  }

  // ---------------------------------------------------------------------------
  // The cursor stays between the start and the end of the tokens.

  lemma {:induction false} AnalysisCursorBounds<T>(a: Analyzer<T>, toks: seq<T>, pos: nat, fuel: nat)
    requires pos <= |toks|
    ensures var o := Analysis(a, toks, pos, fuel);
            o.Returned? ==> pos <= o.value.pos <= |toks|
    decreases fuel, 1
  {
    if fuel > 0 {
      match a
      case Attempt(q) => AnalysisCursorBounds(q, toks, pos, fuel - 1);
      case Map(_, q) => AnalysisCursorBounds(q, toks, pos, fuel - 1);
      case Optional(q) => AnalysisCursorBounds(q, toks, pos, fuel - 1);
      case Loop(q, _, max) => CollectBounds(q, max, toks, pos, [], fuel - 1);
      case Or(q, b) =>
        AnalysisCursorBounds(q, toks, pos, fuel - 1);
        match Analysis(q, toks, pos, fuel - 1) {
          case Returned(Reply(None, r)) => AnalysisCursorBounds(b, toks, r, fuel - 1);
          case _ =>
        }
      case And(q, b) =>
        AnalysisCursorBounds(q, toks, pos, fuel - 1);
        match Analysis(q, toks, pos, fuel - 1) {
          case Returned(Reply(Some(_), r)) => AnalysisCursorBounds(b, toks, r, fuel - 1);
          case _ =>
        }
      case With(q, b) =>
        AnalysisCursorBounds(q, toks, pos, fuel - 1);
        match Analysis(q, toks, pos, fuel - 1) {
          case Returned(Reply(Some(_), r)) => AnalysisCursorBounds(b, toks, r, fuel - 1);
          case _ =>
        }
      case _ =>
    }
  }

  /** The loop keeps what it had collected, collects at most `max`, and never
      moves the cursor back. */
  lemma {:induction false} CollectBounds<T>(q: Analyzer<T>, max: Option<nat>, toks: seq<T>, pos: nat,
                                           acc: seq<Value<T>>, fuel: nat)
    requires pos <= |toks|
    ensures var o := Collect(q, max, toks, pos, acc, fuel);
            o.Returned? ==>
              && pos <= o.value.pos <= |toks|
              && acc <= o.value.items
              && (max.Some? && |acc| <= max.value ==> |o.value.items| <= max.value)
    decreases fuel, 0
  {
    if !(max.Some? && |acc| >= max.value) && fuel > 0 {
      AnalysisCursorBounds(q, toks, pos, fuel - 1);
      match Analysis(q, toks, pos, fuel - 1)
      case Returned(Reply(Some(v), r)) => CollectBounds(q, max, toks, r, acc + [v], fuel - 1);
      case _ =>
    }
  }

  // ---------------------------------------------------------------------------
  // Primitives.

  lemma AnyOneTakesHead<T>(toks: seq<T>, pos: nat, fuel: nat)
    requires fuel > 0
    ensures pos < |toks| ==> Analysis(AnyOne, toks, pos, fuel) == Returned(Reply(Some(Tok(toks[pos])), pos + 1))
    ensures |toks| <= pos ==> Analysis(AnyOne, toks, pos, fuel) == Returned(Reply(None, pos))
  {
  }

  lemma EofIffAtEnd<T>(toks: seq<T>, pos: nat, fuel: nat)
    requires fuel > 0
    ensures Analysis(Eof, toks, pos, fuel).Returned? && Analysis(Eof, toks, pos, fuel).value.pos == pos
    ensures Analysis(Eof, toks, pos, fuel).value.result.Some? <==> |toks| <= pos
  {
  }

  lemma ValNeverConsumes<T>(v: Value<T>, toks: seq<T>, pos: nat, fuel: nat)
    requires fuel > 0
    ensures Analysis(Val(v), toks, pos, fuel) == Returned(Reply(Some(v), pos))
  {
  }

  // ---------------------------------------------------------------------------
  // Combinators.

  lemma AttemptRewindsOnFailure<T>(q: Analyzer<T>, toks: seq<T>, pos: nat, fuel: nat, r: nat)
    requires fuel > 0
    ensures Analysis(q, toks, pos, fuel - 1) == Returned(Reply(None, r)) ==>
              Analysis(Attempt(q), toks, pos, fuel) == Returned(Reply(None, pos))
    ensures Analysis(q, toks, pos, fuel - 1).Returned? && Analysis(q, toks, pos, fuel - 1).value.result.Some? ==>
              Analysis(Attempt(q), toks, pos, fuel) == Analysis(q, toks, pos, fuel - 1)
  {
  }

  /** `or` runs its second branch after every failure of the first, from the
      cursor the first one left behind. */
  lemma OrRetriesWithoutRewind<T>(q: Analyzer<T>, b: Analyzer<T>, toks: seq<T>, pos: nat, fuel: nat, r: nat)
    requires fuel > 0 && Analysis(q, toks, pos, fuel - 1) == Returned(Reply(None, r))
    ensures Analysis(Or(q, b), toks, pos, fuel) == Analysis(b, toks, r, fuel - 1)
  {
  }

  lemma OrKeepsFirstSuccess<T>(q: Analyzer<T>, b: Analyzer<T>, toks: seq<T>, pos: nat, fuel: nat)
    requires fuel > 0 && Analysis(q, toks, pos, fuel - 1).Returned?
    requires Analysis(q, toks, pos, fuel - 1).value.result.Some?
    ensures Analysis(Or(q, b), toks, pos, fuel) == Analysis(q, toks, pos, fuel - 1)
  {
  }

  /** `optional` never fails and never rewinds. */
  lemma OptionalNeverFails<T>(q: Analyzer<T>, toks: seq<T>, pos: nat, fuel: nat)
    requires fuel > 0
    ensures var o := Analysis(q, toks, pos, fuel - 1);
            o.Returned? ==>
              Analysis(Optional(q), toks, pos, fuel) == Returned(Reply(Some(Opt(o.value.result)), o.value.pos))
    ensures var o := Analysis(Optional(q), toks, pos, fuel);
            o.Returned? ==> o.value.result.Some?
  {
  }

  lemma SequencingStopsAtFailure<T>(q: Analyzer<T>, b: Analyzer<T>, f: Value<T> -> Value<T>,
                                    toks: seq<T>, pos: nat, fuel: nat, r: nat)
    requires fuel > 0 && Analysis(q, toks, pos, fuel - 1) == Returned(Reply(None, r))
    ensures Analysis(And(q, b), toks, pos, fuel) == Returned(Reply(None, r))
    ensures Analysis(With(q, b), toks, pos, fuel) == Returned(Reply(None, r))
    ensures Analysis(Map(f, q), toks, pos, fuel) == Returned(Reply(None, r))
  {
  }

  lemma SequencingRunsSecondAfterFirst<T>(q: Analyzer<T>, b: Analyzer<T>, f: Value<T> -> Value<T>,
                                          toks: seq<T>, pos: nat, fuel: nat, v: Value<T>, r: nat)
    requires fuel > 0 && Analysis(q, toks, pos, fuel - 1) == Returned(Reply(Some(v), r))
    ensures Analysis(With(q, b), toks, pos, fuel) == Analysis(b, toks, r, fuel - 1)
    ensures Analysis(Map(f, q), toks, pos, fuel) == Returned(Reply(Some(f(v)), r))
    ensures var o := Analysis(b, toks, r, fuel - 1);
            o.Returned? ==>
              Analysis(And(q, b), toks, pos, fuel)
                == Returned(Reply(if o.value.result.Some? then Some(Pair(v, o.value.result.value)) else None, o.value.pos))
  {
  }

  // ---------------------------------------------------------------------------
  // Loop: collect until the first failure or `max` results, then check `min`.

  lemma CollectRound<T>(q: Analyzer<T>, max: Option<nat>, toks: seq<T>, pos: nat, acc: seq<Value<T>>, fuel: nat)
    ensures max.Some? && |acc| >= max.value ==> Collect(q, max, toks, pos, acc, fuel) == Returned(Collected(acc, pos))
    ensures !(max.Some? && |acc| >= max.value) && fuel > 0 ==>
              var o := Analysis(q, toks, pos, fuel - 1);
              o.Returned? && o.value.result.None? ==>
                Collect(q, max, toks, pos, acc, fuel) == Returned(Collected(acc, o.value.pos))
  {
  }

  /** `Loop` fails exactly when fewer than `min` results were collected, and then
      leaves the cursor where the collecting stopped. */
  lemma LoopFailsIffBelowMin<T>(q: Analyzer<T>, min: Option<nat>, max: Option<nat>, toks: seq<T>, pos: nat, fuel: nat)
    requires fuel > 0 && Collect(q, max, toks, pos, [], fuel - 1).Returned?
    ensures var c := Collect(q, max, toks, pos, [], fuel - 1).value;
            var o := Analysis(Loop(q, min, max), toks, pos, fuel);
            && o.Returned?
            && o.value.pos == c.pos
            && (o.value.result.None? <==> min.Some? && |c.items| < min.value)
            && (o.value.result.Some? ==> o.value.result.value == List(c.items))
  {
  }

  /** Unlike the detailed `Loop`, a successful one always has between `min` and
      `max` results, whatever `min` and `max` are. */
  lemma LoopCount<T>(q: Analyzer<T>, min: Option<nat>, max: Option<nat>, toks: seq<T>, pos: nat, fuel: nat)
    requires pos <= |toks|
    ensures var o := Analysis(Loop(q, min, max), toks, pos, fuel);
            o.Returned? && o.value.result.Some? ==>
              && o.value.result.value.List?
              && (min.Some? ==> min.value <= |o.value.result.value.items|)
              && (max.Some? ==> |o.value.result.value.items| <= max.value)
  {
    if fuel > 0 {
      CollectBounds(q, max, toks, pos, [], fuel - 1);
    }
  }

  lemma ManyNExact<T>(q: Analyzer<T>, n: nat, toks: seq<T>, pos: nat, fuel: nat)
    requires pos <= |toks|
    ensures var o := Analysis(ManyN(q, n), toks, pos, fuel);
            o.Returned? && o.value.result.Some? ==>
              o.value.result.value.List? && |o.value.result.value.items| == n
  {
    LoopCount(q, Some(n), Some(n), toks, pos, fuel);
  }

  /** The loop collects consecutive positive answers: `vs[j]` found from `ps[j]`
      and ending at `ps[j + 1]`, until `max` is reached. */
  lemma {:induction false} CollectConsecutive<T>(q: Analyzer<T>, max: nat, toks: seq<T>, ps: seq<nat>,
                                                vs: seq<Value<T>>, acc: seq<Value<T>>, fuel: nat)
    requires |ps| == |vs| + 1 && |acc| + |vs| == max
    requires forall j :: 0 <= j < |vs| ==> Analysis(q, toks, ps[j], fuel) == Returned(Reply(Some(vs[j]), ps[j + 1]))
    ensures Collect(q, Some(max), toks, ps[0], acc, fuel + |vs|) == Returned(Collected(acc + vs, ps[|vs|]))
    decreases |vs|
  {
    if |vs| == 0 {
      assert acc + vs == acc;
    } else {
      assert Analysis(q, toks, ps[0], fuel) == Returned(Reply(Some(vs[0]), ps[1]));
      AnalysisFuelMonotone(q, toks, ps[0], fuel, fuel + |vs| - 1);
      CollectConsecutive(q, max, toks, ps[1..], vs[1..], acc + [vs[0]], fuel);
      assert acc + [vs[0]] + vs[1..] == acc + vs;
    }
  }

  /** Conversely to `ManyNExact`: `n` consecutive positive answers make
      `many_n(n)` answer exactly those, at the cursor after the last one. */
  lemma ManyNCollectsConsecutive<T>(q: Analyzer<T>, n: nat, toks: seq<T>, ps: seq<nat>, vs: seq<Value<T>>, fuel: nat)
    requires |ps| == n + 1 && |vs| == n
    requires forall j :: 0 <= j < n ==> Analysis(q, toks, ps[j], fuel) == Returned(Reply(Some(vs[j]), ps[j + 1]))
    ensures Analysis(ManyN(q, n), toks, ps[0], fuel + n + 1) == Returned(Reply(Some(List(vs)), ps[n]))
  {
    CollectConsecutive(q, n, toks, ps, vs, [], fuel);
    assert [] + vs == vs;
  }

  lemma ManyNeverFails<T>(q: Analyzer<T>, toks: seq<T>, pos: nat, fuel: nat)
    ensures var o := Analysis(Many(q), toks, pos, fuel);
            o.Returned? ==> o.value.result.Some?
  {
  }

  // ---------------------------------------------------------------------------
  // The relation to the detailed combinators.

  /** The analyzers whose combinators behave like their detailed counterparts:
      no `or`, `optional` or `loop`. */
  ghost predicate Shared<T>(a: Analyzer<T>)
  {
    match a
    case AnyOne => true
    case Val(_) => true
    case Eof => true
    case Attempt(q) => Shared(q)
    case Map(_, q) => Shared(q)
    case And(q, b) => Shared(q) && Shared(b)
    case With(q, b) => Shared(q) && Shared(b)
    case _ => false
  }

  /** The detailed parser with the same shape. */
  function ToParser<T>(a: Analyzer<T>): (res: P.Parser<T>)
  {
    match a
    case AnyOne => P.AnyOne
    case Attempt(q) => P.Attempt(ToParser(q))
    case Map(f, q) => P.Map(f, ToParser(q))
    case Val(v) => P.Val(v)
    case Or(q, b) => P.Or(ToParser(q), ToParser(b))
    case And(q, b) => P.And(ToParser(q), ToParser(b))
    case With(q, b) => P.With(ToParser(q), ToParser(b))
    case Optional(q) => P.Optional(ToParser(q))
    case Loop(q, min, max) => P.Loop(ToParser(q), min, max)
    case Eof => P.Parser.Eof
  }

  /** Forget the error detail of a detailed reply. */
  function Erase<T>(o: Fuelled<P.Reply<T>>): (res: Fuelled<Reply<T>>)
  {
    match o
    case Returned(rep) =>
      Returned(Reply(if rep.result.Ok? then Some(rep.result.value) else None, rep.pos))
    case OutOfFuel => OutOfFuel
  }

  /** On the shared fragment the analyzer is the parser with its errors erased. */
  lemma {:induction false} SharedFragmentErases<T>(a: Analyzer<T>, toks: seq<T>, pos: nat, fuel: nat)
    requires Shared(a)
    ensures Analysis(a, toks, pos, fuel) == Erase(P.Run(ToParser(a), toks, pos, fuel))
    decreases fuel
  {
    if fuel > 0 {
      match a
      case Attempt(q) => SharedFragmentErases(q, toks, pos, fuel - 1);
      case Map(_, q) => SharedFragmentErases(q, toks, pos, fuel - 1);
      case And(q, b) =>
        SharedFragmentErases(q, toks, pos, fuel - 1);
        match Analysis(q, toks, pos, fuel - 1) {
          case Returned(Reply(Some(_), r)) => SharedFragmentErases(b, toks, r, fuel - 1);
          case _ =>
        }
      case With(q, b) =>
        SharedFragmentErases(q, toks, pos, fuel - 1);
        match Analysis(q, toks, pos, fuel - 1) {
          case Returned(Reply(Some(_), r)) => SharedFragmentErases(b, toks, r, fuel - 1);
          case _ =>
        }
      case _ =>
    }
  }

  /** `or`: after `any_one` matched and `eof` failed, the detailed `or` reports
      the error, the analyzer tries `val` from where the first branch stopped. */
  lemma OrDiffersFromParser()
    ensures Analysis(Or(With(AnyOne, Eof), Val(Unit)), [1, 2], 0, 3) == Returned(Reply(Some(Unit), 1))
    ensures P.Run(ToParser(Or(With(AnyOne, Eof), Val(Unit))), [1, 2], 0, 3)
              == Returned(P.Reply(Err(P.ParserError(1, Some(2), P.ErrorExpect.Eof)), 1))
  {
  }

  /** `optional` around a branch that consumed and then failed. */
  lemma OptionalDiffersFromParser()
    ensures Analysis(Optional(With(AnyOne, Eof)), [1, 2], 0, 3) == Returned(Reply(Some(Opt(None)), 1))
    ensures P.Run(ToParser(Optional(With(AnyOne, Eof))), [1, 2], 0, 3)
              == Returned(P.Reply(Err(P.ParserError(1, Some(2), P.ErrorExpect.Eof)), 1))
  {
  }

  /** `many` over an element that consumed and then failed: the analyzer succeeds
      with nothing collected and the cursor not rewound. */
  lemma ManyDiffersFromParser()
    ensures Analysis(Many(With(AnyOne, Eof)), [1, 2], 0, 4) == Returned(Reply(Some(List([])), 1))
    ensures P.Run(ToParser(Many(With(AnyOne, Eof))), [1, 2], 0, 4)
              == Returned(P.Reply(Err(P.ParserError(1, Some(2), P.ErrorExpect.Eof)), 1))
  {
  }

  /** A loop whose `min` exceeds its `max`: the detailed one stops at `max` and
      succeeds, the analyzer checks `min` afterwards and fails. */
  lemma MinAboveMaxDiffersFromParser()
    ensures Analysis(Loop(AnyOne, Some(3), Some(1)), [1], 0, 3) == Returned(Reply(None, 1))
    ensures P.Run(ToParser(Loop(AnyOne, Some(3), Some(1))), [1], 0, 3)
              == Returned(P.Reply(Ok(List([Tok(1)])), 1))
  {
    assert P.Run(P.AnyOne, [1], 0, 1) == Returned(P.Reply(Ok(Tok(1)), 1));
    assert [] + [Tok(1)] == [Tok(1)];
    assert P.RunLoop(P.AnyOne, Some(3), Some(1), [1], 1, [Tok(1)], 1) == Returned(P.Reply(Ok(List([Tok(1)])), 1));
  }
}
