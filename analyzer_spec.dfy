/** The simplified combinator set: success or failure (`Option`), no error detail.
    Its `or`, `optional` and `loop` never look at whether the cursor moved. */
module AnalyzerSpec {
  import opened Base

  /** One constructor per analyzer struct; `Map` carries its closure. */
  datatype Analyzer<!T> =
    | AnyOne
    | Attempt(a: Analyzer<T>)
    | Map(f: Value<T> -> Value<T>, a: Analyzer<T>)
    | Val(v: Value<T>)
    | Or(a: Analyzer<T>, b: Analyzer<T>)
    | And(a: Analyzer<T>, b: Analyzer<T>)
    | With(a: Analyzer<T>, b: Analyzer<T>)
    | Optional(a: Analyzer<T>)
    | Loop(a: Analyzer<T>, min: Option<nat>, max: Option<nat>)
    | Eof

  /** What one `analyze` call leaves behind: its result and the final cursor. */
  datatype Reply<T> = Reply(result: Option<Value<T>>, pos: nat)

  /** What the `for` loop of `Loop` collected, and where it stopped. */
  datatype Collected<T> = Collected(items: seq<Value<T>>, pos: nat)

  /** `a.many()`. */
  function Many<T>(a: Analyzer<T>): (res: Analyzer<T>) { Loop(a, None, None) }

  /** `a.many1()`. */
  function Many1<T>(a: Analyzer<T>): (res: Analyzer<T>) { Loop(a, Some(1), None) }

  /** `a.many_n(n)`. */
  function ManyN<T>(a: Analyzer<T>, n: nat): (res: Analyzer<T>) { Loop(a, Some(n), Some(n)) }

  /** How a method's answer and final cursor are compared with `Analysis`. */
  function Observe<T>(r: Fuelled<Option<Value<T>>>, pos: nat): (res: Fuelled<Reply<T>>)
  {
    match r
    case Returned(x) => Returned(Reply(x, pos))
    case OutOfFuel => OutOfFuel
  }

  /** The meaning of `a.analyze(st)` on a stream over `toks` with the cursor at
      `pos`. Every call uses one unit of `fuel`, and so does every loop round. */
  function Analysis<T>(a: Analyzer<T>, toks: seq<T>, pos: nat, fuel: nat): (res: Fuelled<Reply<T>>)
    decreases fuel, 1
  {
    if fuel == 0 then OutOfFuel else
    match a
    case AnyOne =>
      (match TokenAt(toks, pos)
       case None => Returned(Reply(None, pos))
       case Some(t) => Returned(Reply(Some(Tok(t)), pos + 1)))
    case Attempt(q) =>
      (match Analysis(q, toks, pos, fuel - 1)
       case Returned(Reply(None, _)) => Returned(Reply(None, pos))
       case other => other)
    case Map(f, q) =>
      (match Analysis(q, toks, pos, fuel - 1)
       case Returned(Reply(Some(v), r)) => Returned(Reply(Some(f(v)), r))
       case other => other)
    case Val(v) => Returned(Reply(Some(v), pos))
    case Or(q, b) =>
      (match Analysis(q, toks, pos, fuel - 1)
       case Returned(Reply(None, r)) => Analysis(b, toks, r, fuel - 1)
       case other => other)
    case And(q, b) =>
      (match Analysis(q, toks, pos, fuel - 1)
       case Returned(Reply(Some(v), r)) =>
         (match Analysis(b, toks, r, fuel - 1)
          case Returned(Reply(Some(w), s)) => Returned(Reply(Some(Pair(v, w)), s))
          case other => other)
       case other => other)
    case With(q, b) =>
      (match Analysis(q, toks, pos, fuel - 1)
       case Returned(Reply(Some(_), r)) => Analysis(b, toks, r, fuel - 1)
       case other => other)
    case Optional(q) =>
      (match Analysis(q, toks, pos, fuel - 1)
       case Returned(Reply(x, r)) => Returned(Reply(Some(Opt(x)), r))
       case OutOfFuel => OutOfFuel)
    case Loop(q, min, max) =>
      (match Collect(q, max, toks, pos, [], fuel - 1)
       case Returned(Collected(items, r)) =>
         if min.Some? && |items| < min.value then Returned(Reply(None, r))
         else Returned(Reply(Some(List(items)), r))
       case OutOfFuel => OutOfFuel)
    case Eof =>
      if |toks| <= pos then Returned(Reply(Some(Unit), pos)) else Returned(Reply(None, pos))
  }

  /** The `for` loop of `Loop`, from the round that starts with `acc` collected and
      the cursor at `pos`: stop at `max` results or at the first failure. */
  function Collect<T>(q: Analyzer<T>, max: Option<nat>, toks: seq<T>, pos: nat,
                      acc: seq<Value<T>>, fuel: nat): (res: Fuelled<Collected<T>>)
    decreases fuel, 0
  {
    if max.Some? && |acc| >= max.value then Returned(Collected(acc, pos))
    else if fuel == 0 then OutOfFuel
    else
      match Analysis(q, toks, pos, fuel - 1)
      case OutOfFuel => OutOfFuel
      case Returned(Reply(Some(v), r)) => Collect(q, max, toks, r, acc + [v], fuel - 1)
      case Returned(Reply(None, r)) => Returned(Collected(acc, r))
  }
}
