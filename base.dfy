/** Value types shared by the parser, the analyzer and the lexer models. */
module Base {

  /** Rust's `Option`. */
  datatype Option<+T> = None | Some(value: T)

  /** Rust's `Result`. */
  datatype Result<+R, +E> = Ok(value: R) | Err(error: E)

  /** The answer of a fuel-bounded run: the source's answer, or `OutOfFuel` when the
      budget ran out first (the source itself would still be running). */
  datatype Fuelled<+R> = Returned(value: R) | OutOfFuel

  /** The Rust output types of the combinators (`T`, `()`, tuples, `Option<_>`,
      `Vec<_>`) flattened into one type. */
  datatype Value<+T> =
    | Tok(tok: T)
    | Unit
    | Pair(fst: Value<T>, snd: Value<T>)
    | Opt(opt: Option<Value<T>>)
    | List(items: seq<Value<T>>)

  /** The token at `pos`, if there is one (the stream's `peak`). */
  function TokenAt<T>(toks: seq<T>, pos: nat): (r: Option<T>)
    ensures r.Some? <==> pos < |toks|
    ensures r.Some? ==> r.value == toks[pos]
  {
    if pos < |toks| then Some(toks[pos]) else None
  }

  /** Tokens wrapped as output values, in order. */
  function Toks<T>(xs: seq<T>): (r: seq<Value<T>>)
    ensures |r| == |xs|
    ensures forall i :: 0 <= i < |xs| ==> r[i] == Tok(xs[i])
  {
    if xs == [] then [] else [Tok(xs[0])] + Toks(xs[1..])
  }
}
