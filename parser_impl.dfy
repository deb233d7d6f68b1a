/** The `parse` methods of the parser structs, each running over a mutable
    `Stream` and proved to do what `ParserSpec.Run` says. */
module ParserImpl {
  import opened Base
  import opened Streams
  import opened ParserSpec

  /** `p.parse(st)`: dispatch to the `parse` of `p`'s struct. */
  method Parse<T(==)>(p: Parser<T>, st: Stream<T>, fuel: nat) returns (r: Fuelled<ParseResult<T>>)
    modifies st
    ensures Observe(r, st.pos) == Run(p, st.toks, old(st.pos), fuel)
    decreases fuel, 1
  {
    if fuel == 0 {
      return OutOfFuel;
    }
    match p
    case AnyOne => var x := ParseAnyOne(st); r := Returned(x);
    case Eof => var x := ParseEof(st); r := Returned(x);
    case Val(v) => r := Returned(Ok(v));
    case Token(x) => var y := ParseToken(x, st); r := Returned(y);
    case Tokens(xs) => var y := ParseTokens(xs, st); r := Returned(y);
    case Expect(pred) => var x := ParseExpect(pred, st); r := Returned(x);
    case Fail => var x := ParseFail(st); r := Returned(x);
    case Map(f, q) => r := ParseMap(f, q, st, fuel);
    case Attempt(q) => r := ParseAttempt(q, st, fuel);
    case Or(a, b) => r := ParseOr(a, b, st, fuel);
    case And(a, b) => r := ParseAnd(a, b, st, fuel);
    case With(a, b) => r := ParseWith(a, b, st, fuel);
    case Skip(a, b) => r := ParseSkip(a, b, st, fuel);
    case Optional(q) => r := ParseOptional(q, st, fuel);
    case Loop(q, min, max) => r := ParseLoop(q, min, max, st, fuel);
    case Msg(q, m) => r := ParseMsg(q, m, st, fuel);
    case Then(q, k) => r := ParseThen(q, k, st, fuel);
    case Right(q) => r := Parse(q, st, fuel - 1);
    case Left(q) => r := Parse(q, st, fuel - 1);
  }

  method ParseAnyOne<T(==)>(st: Stream<T>) returns (r: ParseResult<T>)
    modifies st
    ensures Returned(Reply(r, st.pos)) == Run(AnyOne, st.toks, old(st.pos), 1)
  {
    var t := st.Peak();
    if t.None? {
      return Err(ParserError(st.pos, None, ErrorExpect.Any));
    }
    st.Next();
    r := Ok(Tok(t.value));
  }

  method ParseEof<T(==)>(st: Stream<T>) returns (r: ParseResult<T>)
    ensures Returned(Reply(r, st.pos)) == Run(Parser.Eof, st.toks, st.pos, 1)
  {
    var t := st.Peak();
    if t.Some? {
      r := Err(ParserError(st.pos, Some(t.value), ErrorExpect.Eof));
    } else {
      r := Ok(Unit);
    }
  }

  method ParseToken<T(==)>(x: T, st: Stream<T>) returns (r: ParseResult<T>)
    modifies st
    ensures Returned(Reply(r, st.pos)) == Run(Parser.Token(x), st.toks, old(st.pos), 1)
  {
    var t := st.Peak();
    if t.None? {
      return Err(ParserError(st.pos, None, ErrorExpect.Token(x)));
    }
    if t.value == x {
      st.Next();
      r := Ok(Tok(t.value));
    } else {
      r := Err(ParserError(st.pos, Some(t.value), ErrorExpect.Token(x)));
    }
  }

  method ParseTokens<T(==)>(xs: seq<T>, st: Stream<T>) returns (r: ParseResult<T>)
    modifies st
    ensures Returned(Reply(r, st.pos)) == Run(Tokens(xs), st.toks, old(st.pos), 1)
  {
    var res: seq<Value<T>> := [];
    for i := 0 to |xs|
      invariant RunTokens(xs[i..], st.toks, st.pos, res) == RunTokens(xs, st.toks, old(st.pos), [])
    {
      var y := st.Peak();
      if y.None? {
        return Err(ParserError(st.pos, None, ErrorExpect.Token(xs[i])));
      }
      if xs[i] == y.value {
        assert xs[i..][1..] == xs[i + 1..];
        st.Next();
        res := res + [Tok(y.value)];
      } else {
        return Err(ParserError(st.pos, Some(y.value), ErrorExpect.Token(xs[i])));
      }
    }
    r := Ok(List(res));
  }

  method ParseExpect<T(==)>(pred: T -> bool, st: Stream<T>) returns (r: ParseResult<T>)
    modifies st
    ensures Returned(Reply(r, st.pos)) == Run(Expect(pred), st.toks, old(st.pos), 1)
  {
    var t := st.Peak();
    if t.None? {
      return Err(ParserError(st.pos, None, Unknown));
    }
    if pred(t.value) {
      st.Next();
      r := Ok(Tok(t.value));
    } else {
      r := Err(ParserError(st.pos, Some(t.value), Unknown));
    }
  }

  method ParseFail<T(==)>(st: Stream<T>) returns (r: ParseResult<T>)
    ensures Returned(Reply(r, st.pos)) == Run(Fail, st.toks, st.pos, 1)
  {
    r := Err(ParserError(st.pos, st.Peak(), Unknown));
  }

  method ParseMap<T(==)>(f: Value<T> -> Value<T>, q: Parser<T>, st: Stream<T>, fuel: nat)
    returns (r: Fuelled<ParseResult<T>>)
    requires fuel > 0
    modifies st
    ensures Observe(r, st.pos) == Run(Map(f, q), st.toks, old(st.pos), fuel)
    decreases fuel, 0
  {
    r := Parse(q, st, fuel - 1);
    if r.Returned? && r.value.Ok? {
      r := Returned(Ok(f(r.value.value)));
    }
  }

  method ParseAttempt<T(==)>(q: Parser<T>, st: Stream<T>, fuel: nat) returns (r: Fuelled<ParseResult<T>>)
    requires fuel > 0
    modifies st
    ensures Observe(r, st.pos) == Run(Attempt(q), st.toks, old(st.pos), fuel)
    decreases fuel, 0
  {
    var pos := st.pos;
    r := Parse(q, st, fuel - 1);
    if r.Returned? && r.value.Err? {
      st.SetPos(pos);
    }
  }

  method ParseOr<T(==)>(a: Parser<T>, b: Parser<T>, st: Stream<T>, fuel: nat)
    returns (r: Fuelled<ParseResult<T>>)
    requires fuel > 0
    modifies st
    ensures Observe(r, st.pos) == Run(Or(a, b), st.toks, old(st.pos), fuel)
    decreases fuel, 0
  {
    var pos := st.pos;
    r := Parse(a, st, fuel - 1);
    if r.Returned? && r.value.Err? && pos == st.pos {
      r := Parse(b, st, fuel - 1);
    }
  }

  method ParseAnd<T(==)>(a: Parser<T>, b: Parser<T>, st: Stream<T>, fuel: nat)
    returns (r: Fuelled<ParseResult<T>>)
    requires fuel > 0
    modifies st
    ensures Observe(r, st.pos) == Run(And(a, b), st.toks, old(st.pos), fuel)
    decreases fuel, 0
  {
    var x := Parse(a, st, fuel - 1);
    if x.OutOfFuel? || x.value.Err? {
      return x;
    }
    var y := Parse(b, st, fuel - 1);
    if y.OutOfFuel? || y.value.Err? {
      return y;
    }
    r := Returned(Ok(Pair(x.value.value, y.value.value)));
  }

  method ParseWith<T(==)>(a: Parser<T>, b: Parser<T>, st: Stream<T>, fuel: nat)
    returns (r: Fuelled<ParseResult<T>>)
    requires fuel > 0
    modifies st
    ensures Observe(r, st.pos) == Run(With(a, b), st.toks, old(st.pos), fuel)
    decreases fuel, 0
  {
    r := Parse(a, st, fuel - 1);
    if r.OutOfFuel? || r.value.Err? {
      return;
    }
    r := Parse(b, st, fuel - 1);
  }

  method ParseSkip<T(==)>(a: Parser<T>, b: Parser<T>, st: Stream<T>, fuel: nat)
    returns (r: Fuelled<ParseResult<T>>)
    requires fuel > 0
    modifies st
    ensures Observe(r, st.pos) == Run(Skip(a, b), st.toks, old(st.pos), fuel)
    decreases fuel, 0
  {
    r := Parse(a, st, fuel - 1);
    if r.OutOfFuel? || r.value.Err? {
      return;
    }
    var y := Parse(b, st, fuel - 1);
    if y.OutOfFuel? || y.value.Err? {
      return y;
    }
  }

  method ParseOptional<T(==)>(q: Parser<T>, st: Stream<T>, fuel: nat) returns (r: Fuelled<ParseResult<T>>)
    requires fuel > 0
    modifies st
    ensures Observe(r, st.pos) == Run(Optional(q), st.toks, old(st.pos), fuel)
    decreases fuel, 0
  {
    var pos := st.pos;
    r := Parse(q, st, fuel - 1);
    match r
    case OutOfFuel =>
    case Returned(Ok(v)) => r := Returned(Ok(Opt(Some(v))));
    case Returned(Err(e)) =>
      if pos == st.pos {
        r := Returned(Ok(Opt(None)));
      }
  }

  method ParseLoop<T(==)>(q: Parser<T>, min: Option<nat>, max: Option<nat>, st: Stream<T>, fuel: nat)
    returns (r: Fuelled<ParseResult<T>>)
    requires fuel > 0
    modifies st
    ensures Observe(r, st.pos) == Run(Loop(q, min, max), st.toks, old(st.pos), fuel)
    decreases fuel, 0
  {
    var res: seq<Value<T>> := [];
    var f := fuel - 1;
    while true
      invariant f < fuel
      invariant RunLoop(q, min, max, st.toks, st.pos, res, f) == Run(Loop(q, min, max), st.toks, old(st.pos), fuel)
      decreases f
    {
      if max.Some? && |res| >= max.value {
        break;
      }
      if f == 0 {
        return OutOfFuel;
      }
      var pos := st.pos;
      var x := Parse(q, st, f - 1);
      match x {
        case OutOfFuel => return OutOfFuel;
        case Returned(Ok(v)) => res := res + [v];
        case Returned(Err(e)) =>
          if min.Some? && |res| < min.value {
            return x;
          }
          if st.pos != pos {
            return x;
          }
          break;
      }
      f := f - 1;
    }
    r := Returned(Ok(List(res)));
  }

  method ParseMsg<T(==)>(q: Parser<T>, m: ErrorExpect<T>, st: Stream<T>, fuel: nat)
    returns (r: Fuelled<ParseResult<T>>)
    requires fuel > 0
    modifies st
    ensures Observe(r, st.pos) == Run(Msg(q, m), st.toks, old(st.pos), fuel)
    decreases fuel, 0
  {
    r := Parse(q, st, fuel - 1);
    if r.Returned? && r.value.Err? {
      r := Returned(Err(r.value.error.(expecting := m)));
    }
  }

  method ParseThen<T(==)>(q: Parser<T>, k: Value<T> -> Parser<T>, st: Stream<T>, fuel: nat)
    returns (r: Fuelled<ParseResult<T>>)
    requires fuel > 0
    modifies st
    ensures Observe(r, st.pos) == Run(Then(q, k), st.toks, old(st.pos), fuel)
    decreases fuel, 0
  {
    r := Parse(q, st, fuel - 1);
    if r.Returned? && r.value.Ok? {
      r := Parse(k(r.value.value), st, fuel - 1);
    }
  }
}
