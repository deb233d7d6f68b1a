/** The detailed combinator engine: its error value, its grammar trees and the
    meaning of running a tree over a token sequence. */
module ParserSpec {
  import opened Base

  /** What the failing parser was looking for. */
  datatype ErrorExpect<T> = Any | Eof | Token(t: T) | Unknown

  /** A failure: where it happened, the token found there (if any), and what was
      expected. */
  datatype ParserError<T> = ParserError(pos: nat, unexpected: Option<T>, expecting: ErrorExpect<T>)

  type ParseResult<T> = Result<Value<T>, ParserError<T>>

  /** What one `parse` call leaves behind: its result and the final cursor. */
  datatype Reply<T> = Reply(result: ParseResult<T>, pos: nat)

  /** One constructor per parser struct. The closures of `Map`, `Expect` and `Then`
      are function values; `Right`/`Left` are the two cases of `Either`. */
  datatype Parser<!T> =
    | AnyOne
    | Eof
    | Val(v: Value<T>)
    | Token(x: T)
    | Tokens(xs: seq<T>)
    | Expect(pred: T -> bool)
    | Fail
    | Map(f: Value<T> -> Value<T>, p: Parser<T>)
    | Attempt(p: Parser<T>)
    | Or(a: Parser<T>, b: Parser<T>)
    | And(a: Parser<T>, b: Parser<T>)
    | With(a: Parser<T>, b: Parser<T>)
    | Skip(a: Parser<T>, b: Parser<T>)
    | Optional(p: Parser<T>)
    | Loop(p: Parser<T>, min: Option<nat>, max: Option<nat>)
    | Msg(p: Parser<T>, e: ErrorExpect<T>)
    | Then(p: Parser<T>, k: Value<T> -> Parser<T>)
    | Right(p: Parser<T>)
    | Left(p: Parser<T>)

  // Builders of the `Parser` trait that are not a single constructor.

  /** `p.many()`: any number of repetitions. */
  function Many<T>(p: Parser<T>): (res: Parser<T>) { Loop(p, None, None) }

  /** `p.many1()`: at least one repetition. */
  function Many1<T>(p: Parser<T>): (res: Parser<T>) { Loop(p, Some(1), None) }

  /** `p.many_n(n)`: exactly `n` repetitions. */
  function ManyN<T>(p: Parser<T>, n: nat): (res: Parser<T>) { Loop(p, Some(n), Some(n)) }

  /** `p.val(x)`: run `p`, then answer `x`. */
  function WithVal<T>(p: Parser<T>, x: Value<T>): (res: Parser<T>) { With(p, Val(x)) }

  /** The `or!` macro: `or!(a, b, c)` is `a.or(b.or(c))`. */
  function OrChain<T>(ps: seq<Parser<T>>): (res: Parser<T>)
    requires |ps| > 0
  {
    if |ps| == 1 then ps[0] else Or(ps[0], OrChain(ps[1..]))
  }

  /** A failure that left the cursor where the parser started. */
  predicate FailsCleanly<T>(o: Fuelled<Reply<T>>, start: nat)
  {
    o.Returned? && o.value.result.Err? && o.value.pos == start
  }

  /** How a method's answer and final cursor are compared with `Run`. */
  function Observe<T>(r: Fuelled<ParseResult<T>>, pos: nat): (res: Fuelled<Reply<T>>)
  {
    match r
    case Returned(x) => Returned(Reply(x, pos))
    case OutOfFuel => OutOfFuel
  }

  /** The meaning of `p.parse(st)` on a stream over `toks` with the cursor at `pos`.
      Every call uses one unit of `fuel`, and so does every round of a loop. */
  function Run<T(==)>(p: Parser<T>, toks: seq<T>, pos: nat, fuel: nat): (res: Fuelled<Reply<T>>)
    decreases fuel, 1
  {
    if fuel == 0 then OutOfFuel else
    match p
    case AnyOne =>
      (match TokenAt(toks, pos)
      case None => Returned(Reply(Err(ParserError(pos, None, ErrorExpect.Any)), pos))
      case Some(t) => Returned(Reply(Ok(Tok(t)), pos + 1)))
    case Eof =>
      (match TokenAt(toks, pos)
      case Some(t) => Returned(Reply(Err(ParserError(pos, Some(t), ErrorExpect.Eof)), pos))
      case None => Returned(Reply(Ok(Unit), pos)))
    case Val(v) => Returned(Reply(Ok(v), pos))
    case Token(x) =>
      (match TokenAt(toks, pos)
      case None => Returned(Reply(Err(ParserError(pos, None, ErrorExpect.Token(x))), pos))
      case Some(t) =>
        if t == x then Returned(Reply(Ok(Tok(t)), pos + 1))
        else Returned(Reply(Err(ParserError(pos, Some(t), ErrorExpect.Token(x))), pos)))
    case Tokens(xs) => Returned(RunTokens(xs, toks, pos, []))
    case Expect(pred) =>
      (match TokenAt(toks, pos)
      case None => Returned(Reply(Err(ParserError(pos, None, Unknown)), pos))
      case Some(t) =>
        if pred(t) then Returned(Reply(Ok(Tok(t)), pos + 1))
        else Returned(Reply(Err(ParserError(pos, Some(t), Unknown)), pos)))
    case Fail => Returned(Reply(Err(ParserError(pos, TokenAt(toks, pos), Unknown)), pos))
    case Map(f, q) =>
      (match Run(q, toks, pos, fuel - 1)
      case Returned(Reply(Ok(v), r)) => Returned(Reply(Ok(f(v)), r))
      case other => other)
    case Attempt(q) =>
      (match Run(q, toks, pos, fuel - 1)
      case Returned(Reply(Err(e), _)) => Returned(Reply(Err(e), pos))
      case other => other)
    case Or(a, b) =>
      (match Run(a, toks, pos, fuel - 1)
      case Returned(Reply(Err(e), r)) =>
        if r == pos then Run(b, toks, pos, fuel - 1) else Returned(Reply(Err(e), r))
      case other => other)
    case And(a, b) =>
      (match Run(a, toks, pos, fuel - 1)
      case Returned(Reply(Ok(v), r)) =>
        (match Run(b, toks, r, fuel - 1)
         case Returned(Reply(Ok(w), s)) => Returned(Reply(Ok(Pair(v, w)), s))
         case other => other)
      case other => other)
    case With(a, b) =>
      (match Run(a, toks, pos, fuel - 1)
      case Returned(Reply(Ok(_), r)) => Run(b, toks, r, fuel - 1)
      case other => other)
    case Skip(a, b) =>
      (match Run(a, toks, pos, fuel - 1)
      case Returned(Reply(Ok(v), r)) =>
        (match Run(b, toks, r, fuel - 1)
         case Returned(Reply(Ok(_), s)) => Returned(Reply(Ok(v), s))
         case other => other)
      case other => other)
    case Optional(q) =>
      (match Run(q, toks, pos, fuel - 1)
      case Returned(Reply(Ok(v), r)) => Returned(Reply(Ok(Opt(Some(v))), r))
      case Returned(Reply(Err(e), r)) =>
        if r == pos then Returned(Reply(Ok(Opt(None)), r)) else Returned(Reply(Err(e), r))
      case OutOfFuel => OutOfFuel)
    case Loop(q, min, max) => RunLoop(q, min, max, toks, pos, [], fuel - 1)
    case Msg(q, m) =>
      (match Run(q, toks, pos, fuel - 1)
      case Returned(Reply(Err(e), r)) => Returned(Reply(Err(e.(expecting := m)), r))
      case other => other)
    case Then(q, k) =>
      (match Run(q, toks, pos, fuel - 1)
      case Returned(Reply(Ok(v), r)) => Run(k(v), toks, r, fuel - 1)
      case other => other)
    case Right(q) => Run(q, toks, pos, fuel - 1)
    case Left(q) => Run(q, toks, pos, fuel - 1)
  }

  /** The loop of `Tokens`: match `xs` one token at a time, `acc` holding what was
      matched so far. */
  function RunTokens<T(==)>(xs: seq<T>, toks: seq<T>, pos: nat, acc: seq<Value<T>>): (res: Reply<T>)
    decreases |xs|
  {
    if xs == [] then Reply(Ok(List(acc)), pos) else
    match TokenAt(toks, pos)
    case None => Reply(Err(ParserError(pos, None, ErrorExpect.Token(xs[0]))), pos)
    case Some(y) =>
      if xs[0] == y then RunTokens(xs[1..], toks, pos + 1, acc + [Tok(y)])
      else Reply(Err(ParserError(pos, Some(y), ErrorExpect.Token(xs[0]))), pos)
  }

  /** The loop of `Loop`, from the round that starts with `acc` collected and the
      cursor at `pos`. */
  function RunLoop<T(==)>(q: Parser<T>, min: Option<nat>, max: Option<nat>, toks: seq<T>,
                          pos: nat, acc: seq<Value<T>>, fuel: nat): (res: Fuelled<Reply<T>>)
    decreases fuel, 0
  {
    if max.Some? && |acc| >= max.value then Returned(Reply(Ok(List(acc)), pos))
    else if fuel == 0 then OutOfFuel
    else
      match Run(q, toks, pos, fuel - 1)
      case OutOfFuel => OutOfFuel
      case Returned(Reply(Ok(v), r)) => RunLoop(q, min, max, toks, r, acc + [v], fuel - 1)
      case Returned(Reply(Err(e), r)) =>
        if min.Some? && |acc| < min.value then Returned(Reply(Err(e), r))
        else if r != pos then Returned(Reply(Err(e), r))
        else Returned(Reply(Ok(List(acc)), pos))
  }
}
