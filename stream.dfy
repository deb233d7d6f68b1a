/** The token cursor the combinators run over. Its own source is not part of this
    model; it is specified here from the way the combinators use it. */
module Streams {
  import opened Base

  class Stream<T> {
    /** The tokens, fixed once the stream is built. */
    const toks: seq<T>
    /** The cursor: the index of the next token. */
    var pos: nat

    constructor (toks: seq<T>)
      ensures this.toks == toks && pos == 0
    {
      this.toks := toks;
      pos := 0;
    }

    /** `peak()`: the current token, without moving. */
    function Peak(): (res: Option<T>)
      reads this
    {
      TokenAt(toks, pos)
    }

    /** `eof()`: no token remains. */
    predicate AtEof()
      reads this
    {
      |toks| <= pos
    }

    /** `next()`: step over the current token; callers only do so after a
        successful `peak()`. */
    method Next()
      requires pos < |toks|
      modifies this
      ensures pos == old(pos) + 1
    {
      pos := pos + 1;
    }

    /** `add_pos(n)`: move the cursor forward by `n`. */
    method AddPos(n: nat)
      modifies this
      ensures pos == old(pos) + n
    {
      pos := pos + n;
    }

    /** `set_pos(p)`: put the cursor back at a position observed earlier. */
    method SetPos(p: nat)
      modifies this
      ensures pos == p
    {
      pos := p;
    }
  }
}
