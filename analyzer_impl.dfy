/** The `analyze` methods of the analyzer structs, over a mutable `Stream`, each
    proved to do what `AnalyzerSpec.Analysis` says. */
module AnalyzerImpl {
  import opened Base
  import opened Streams
  import opened AnalyzerSpec

  /** `a.analyze(st)`: dispatch to the `analyze` of `a`'s struct. */
  method Analyze<T>(a: Analyzer<T>, st: Stream<T>, fuel: nat) returns (r: Fuelled<Option<Value<T>>>)
    modifies st
    ensures Observe(r, st.pos) == Analysis(a, st.toks, old(st.pos), fuel)
    decreases fuel, 1
  {
    if fuel == 0 {
      return OutOfFuel;
    }
    match a
    case AnyOne => var x := AnalyzeAnyOne(st); r := Returned(x);
    case Attempt(q) => r := AnalyzeAttempt(q, st, fuel);
    case Map(f, q) => r := AnalyzeMap(f, q, st, fuel);
    case Val(v) => r := Returned(Some(v));
    case Or(q, b) => r := AnalyzeOr(q, b, st, fuel);
    case And(q, b) => r := AnalyzeAnd(q, b, st, fuel);
    case With(q, b) => r := AnalyzeWith(q, b, st, fuel);
    case Optional(q) => r := AnalyzeOptional(q, st, fuel);
    case Loop(q, min, max) => r := AnalyzeLoop(q, min, max, st, fuel);
    case Eof => var x := AnalyzeEof(st); r := Returned(x);
  }

  method AnalyzeAnyOne<T>(st: Stream<T>) returns (r: Option<Value<T>>)
    modifies st
    ensures Returned(Reply(r, st.pos)) == Analysis(AnyOne, st.toks, old(st.pos), 1)
  {
    var t := st.Peak();
    if t.None? {
      return None;
    }
    st.AddPos(1);
    r := Some(Tok(t.value));
  }

  method AnalyzeEof<T>(st: Stream<T>) returns (r: Option<Value<T>>)
    ensures Returned(Reply(r, st.pos)) == Analysis(Eof, st.toks, st.pos, 1)
  {
    if st.AtEof() {
      r := Some(Unit);
    } else {
      r := None;
    }
  }

  method AnalyzeAttempt<T>(q: Analyzer<T>, st: Stream<T>, fuel: nat) returns (r: Fuelled<Option<Value<T>>>)
    requires fuel > 0
    modifies st
    ensures Observe(r, st.pos) == Analysis(Attempt(q), st.toks, old(st.pos), fuel)
    decreases fuel, 0
  {
    var pos := st.pos;
    r := Analyze(q, st, fuel - 1);
    if r == Returned(None) {
      st.SetPos(pos);
    }
  }

  method AnalyzeMap<T>(f: Value<T> -> Value<T>, q: Analyzer<T>, st: Stream<T>, fuel: nat)
    returns (r: Fuelled<Option<Value<T>>>)
    requires fuel > 0
    modifies st
    ensures Observe(r, st.pos) == Analysis(Map(f, q), st.toks, old(st.pos), fuel)
    decreases fuel, 0
  {
    r := Analyze(q, st, fuel - 1);
    if r.Returned? && r.value.Some? {
      r := Returned(Some(f(r.value.value)));
    }
  }

  method AnalyzeOr<T>(q: Analyzer<T>, b: Analyzer<T>, st: Stream<T>, fuel: nat)
    returns (r: Fuelled<Option<Value<T>>>)
    requires fuel > 0
    modifies st
    ensures Observe(r, st.pos) == Analysis(Or(q, b), st.toks, old(st.pos), fuel)
    decreases fuel, 0
  {
    r := Analyze(q, st, fuel - 1);
    if r == Returned(None) {
      r := Analyze(b, st, fuel - 1);
    }
  }

  method AnalyzeAnd<T>(q: Analyzer<T>, b: Analyzer<T>, st: Stream<T>, fuel: nat)
    returns (r: Fuelled<Option<Value<T>>>)
    requires fuel > 0
    modifies st
    ensures Observe(r, st.pos) == Analysis(And(q, b), st.toks, old(st.pos), fuel)
    decreases fuel, 0
  {
    var x := Analyze(q, st, fuel - 1);
    if x.OutOfFuel? || x.value.None? {
      return x;
    }
    var y := Analyze(b, st, fuel - 1);
    if y.OutOfFuel? || y.value.None? {
      return y;
    }
    r := Returned(Some(Pair(x.value.value, y.value.value)));
  }

  method AnalyzeWith<T>(q: Analyzer<T>, b: Analyzer<T>, st: Stream<T>, fuel: nat)
    returns (r: Fuelled<Option<Value<T>>>)
    requires fuel > 0
    modifies st
    ensures Observe(r, st.pos) == Analysis(With(q, b), st.toks, old(st.pos), fuel)
    decreases fuel, 0
  {
    r := Analyze(q, st, fuel - 1);
    if r.OutOfFuel? || r.value.None? {
      return;
    }
    r := Analyze(b, st, fuel - 1);
  }

  method AnalyzeOptional<T>(q: Analyzer<T>, st: Stream<T>, fuel: nat) returns (r: Fuelled<Option<Value<T>>>)
    requires fuel > 0
    modifies st
    ensures Observe(r, st.pos) == Analysis(Optional(q), st.toks, old(st.pos), fuel)
    decreases fuel, 0
  {
    r := Analyze(q, st, fuel - 1);
    if r.Returned? {
      r := Returned(Some(Opt(r.value)));
    }
  }

  method AnalyzeLoop<T>(q: Analyzer<T>, min: Option<nat>, max: Option<nat>, st: Stream<T>, fuel: nat)
    returns (r: Fuelled<Option<Value<T>>>)
    requires fuel > 0
    modifies st
    ensures Observe(r, st.pos) == Analysis(Loop(q, min, max), st.toks, old(st.pos), fuel)
    decreases fuel, 0
  {
    var res: seq<Value<T>> := [];
    var f := fuel - 1;
    while true
      invariant f < fuel
      invariant Collect(q, max, st.toks, st.pos, res, f) == Collect(q, max, st.toks, old(st.pos), [], fuel - 1)
      decreases f
    {
      if max.Some? && |res| >= max.value {
        break;
      }
      if f == 0 {
        return OutOfFuel;
      }
      var x := Analyze(q, st, f - 1);
      match x {
        case OutOfFuel => return OutOfFuel;
        case Returned(Some(v)) => res := res + [v];
        case Returned(None) => break;
      }
      f := f - 1;
    }
    if min.Some? && |res| < min.value {
      return Returned(None);
    }
    r := Returned(Some(List(res)));
  }
}
