/** The character cursor of the lexer: a position into the input characters,
    look-ahead, single-step advance, and the skipping of whitespace and of
    line and block comments. */
module Lexing {
  import opened Base

  /** The characters `spaces` skips. */
  predicate IsSpace(c: char)
  {
    c == ' ' || c == '\n' || c == '\t'
  }

  // `//` starts at index `p`.
  predicate OpensLine(data: seq<char>, p: nat)
  {
    p + 1 < |data| && data[p] == '/' && data[p + 1] == '/'
  }

  // `/*` starts at index `p`.
  predicate OpensBlock(data: seq<char>, p: nat)
  {
    p + 1 < |data| && data[p] == '/' && data[p + 1] == '*'
  }

  // `*/` starts at index `k`.
  predicate ClosesAt(data: seq<char>, k: nat)
  {
    k + 1 < |data| && data[k] == '*' && data[k + 1] == '/'
  }

  // Where a line comment scanned from `from` ends: just past the first
  // newline at or after `from`, or at the end of the input.
  function LineEnd(data: seq<char>, from: nat): (r: nat)
    requires from <= |data|
    ensures from <= r <= |data|
    ensures || (r == |data| && forall k | from <= k < |data| :: data[k] != '\n')
            || (from < r && data[r - 1] == '\n' && forall k | from <= k < r - 1 :: data[k] != '\n')
    decreases |data| - from
  {
    if from == |data| then from
    else if data[from] == '\n' then from + 1
    else LineEnd(data, from + 1)
  }

  // Where a block comment scanned from `from` ends: just past the first `*/`
  // whose `*` is at or after `from`, or at the end of the input.
  function BlockEnd(data: seq<char>, from: nat): (r: nat)
    requires from <= |data|
    ensures from <= r <= |data|
    ensures || (r == |data| && forall k | from <= k < |data| :: !ClosesAt(data, k))
            || (from + 2 <= r && ClosesAt(data, r - 2) && forall k | from <= k < r - 2 :: !ClosesAt(data, k))
    decreases |data| - from
  {
    if from == |data| then from
    else if ClosesAt(data, from) then from + 2
    else BlockEnd(data, from + 1)
  }

  /** The first index at or after `from` that does not hold whitespace. */
  function SpacesEnd(data: seq<char>, from: nat): (r: nat)
    requires from <= |data|
    ensures from <= r <= |data|
    ensures forall k | from <= k < r :: IsSpace(data[k])
    ensures r < |data| ==> !IsSpace(data[r])
    decreases |data| - from
  {
    if from == |data| || !IsSpace(data[from]) then from
    else SpacesEnd(data, from + 1)
  }

  lemma SpacesEndIdempotent(data: seq<char>, from: nat)
    requires from <= |data|
    ensures SpacesEnd(data, SpacesEnd(data, from)) == SpacesEnd(data, from)
  {
  }

  /** Where skipping from `from` ends: past whitespace, then past each comment
      and the whitespace after it, until neither is at the cursor. */
  function SkipEnd(data: seq<char>, from: nat): (r: nat)
    requires from <= |data|
    ensures from <= r <= |data|
    ensures !(r < |data| && IsSpace(data[r]))
    ensures !OpensLine(data, r) && !OpensBlock(data, r)
    decreases |data| - from
  {
    var q := SpacesEnd(data, from);
    if OpensLine(data, q) then SkipEnd(data, LineEnd(data, q))
    else if OpensBlock(data, q) then SkipEnd(data, BlockEnd(data, q))
    else q
  }

  /** Whether `skip` as written returns when started at `from`: its `spaces`
      never returns on whitespace, so it returns only when no whitespace is at
      the start nor after any of the comments it passes. */
  function SkipStops(data: seq<char>, from: nat): (r: bool)
    requires from <= |data|
    ensures r ==> !(from < |data| && IsSpace(data[from]))
    ensures r && !OpensLine(data, from) && !OpensBlock(data, from) ==> SkipEnd(data, from) == from
    decreases |data| - from
  {
    if from < |data| && IsSpace(data[from]) then false
    else if OpensLine(data, from) then SkipStops(data, LineEnd(data, from))
    else if OpensBlock(data, from) then SkipStops(data, BlockEnd(data, from))
    else true
  }

  /** `skip` as written returns on `"x y"` but not on `" x"`, nor on a line
      comment followed by whitespace. */
  lemma SkipStopsExamples()
    ensures SkipStops("x y", 0)
    ensures !SkipStops(" x", 0)
    ensures !SkipStops("//a\n b", 0)
  {
    assert OpensLine("//a\n b", 0);
    assert LineEnd("//a\n b", 0) == 4 by {
      assert LineEnd("//a\n b", 3) == 4;
    }
  }

  /** Skipping whitespace first does not change where skipping ends. */
  lemma SkipEndAfterSpaces(data: seq<char>, from: nat)
    requires from <= |data|
    ensures SkipEnd(data, SpacesEnd(data, from)) == SkipEnd(data, from)
  {
    SpacesEndIdempotent(data, from);
  }

  // The `*` of the opener can start the closer: `/*/` is a whole block
  // comment.
  lemma SharedStarClosesBlock()
    ensures BlockEnd("/*/", 0) == 3
    ensures BlockEnd("/*/ x", 0) == 3
  {
    assert !ClosesAt("/*/", 0) && ClosesAt("/*/", 1);
    assert !ClosesAt("/*/ x", 0) && ClosesAt("/*/ x", 1);
  }

  class Lexer {
    var pos: nat
    const data: seq<char>

    /** The position never passes the end of the input. */
    ghost predicate Valid()
      reads this
    {
      pos <= |data|
    }

    constructor (s: seq<char>)
      ensures data == s && pos == 0
      ensures Valid()
    {
      pos := 0;
      data := s;
    }

    /** The character under the cursor, if any. */
    function Peek(): (r: Option<char>)
      reads this
      ensures r.Some? <==> pos < |data|
      ensures r.Some? ==> r.value == data[pos]
    {
      TokenAt(data, pos)
    }

    /** The character `i` places after the cursor, if any. */
    function PeekIndex(i: nat): (r: Option<char>)
      reads this
      ensures r.Some? <==> pos + i < |data|
      ensures r.Some? ==> r.value == data[pos + i]
    {
      TokenAt(data, pos + i)
    }

    predicate SpaceAt()
      reads this
    {
      pos < |data| && IsSpace(data[pos])
    }

    /** Returns the character under the cursor and steps past it; at the end of
        the input it returns nothing and stays. */
    method Next() returns (r: Option<char>)
      modifies this
      ensures r == old(Peek())
      ensures pos == if old(pos) < |data| then old(pos) + 1 else old(pos)
      ensures old(Valid()) ==> Valid()
    {
      r := Peek();
      if r.Some? {
        pos := pos + 1;
      }
    }

    /** The character under the cursor when `f` accepts it; never moves. */
    method Expect(f: char -> bool) returns (r: Option<char>)
      ensures r.Some? <==> pos < |data| && f(data[pos])
      ensures r.Some? ==> r.value == data[pos]
    {
      var c := Peek();
      if c.Some? && f(c.value) {
        r := c;
      } else {
        r := None;
      }
    }

    /** Like `Expect`, and steps past the character it accepts. */
    method ExpectNext(f: char -> bool) returns (r: Option<char>)
      modifies this
      ensures r.Some? <==> old(pos) < |data| && f(data[old(pos)])
      ensures r.Some? ==> r.value == data[old(pos)] && pos == old(pos) + 1
      ensures r.None? ==> pos == old(pos)
      ensures old(Valid()) ==> Valid()
    {
      var x := Expect(f);
      if x.None? {
        return None;
      }
      var _ := Next();
      r := x;
    }

    /** `spaces` as written: it repeats `Expect`, which never moves, for as long
        as the cursor is on whitespace, so it ends at once when the cursor is not
        on whitespace and never ends when it is. `fuel` bounds the rounds;
        `done` is false when the loop was still running after them. */
    method Spaces(fuel: nat) returns (done: bool)
      ensures done <==> fuel > 0 && !SpaceAt()
    {
      var f := fuel;
      while f > 0
        invariant f <= fuel
        invariant f < fuel ==> SpaceAt()
      {
        var c := Expect(IsSpace);
        if c.None? {
          return true;
        }
        f := f - 1;
      }
      return false;
    }

    /** `spaces` as evidently intended: it consumes whitespace. */
    method SpacesIntended()
      modifies this
      ensures old(pos) <= |data| ==> pos == SpacesEnd(data, old(pos))
      ensures |data| < old(pos) ==> pos == old(pos)
      ensures old(Valid()) ==> Valid()
    {
      while true
        invariant old(pos) <= pos
        invariant old(pos) <= |data| ==> pos <= |data| && SpacesEnd(data, pos) == SpacesEnd(data, old(pos))
        invariant |data| < old(pos) ==> pos == old(pos)
        decreases |data| - pos
      {
        var c := ExpectNext(IsSpace);
        if c.None? {
          break;
        }
      }
    }

    // Skips a `//` comment up to and including the end of its line.
    method LineComment() returns (r: Option<()>)
      modifies this
      ensures r.Some? <==> OpensLine(data, old(pos))
      ensures r.Some? ==> pos == LineEnd(data, old(pos))
      ensures r.None? ==> pos == old(pos)
      ensures old(Valid()) ==> Valid()
    {
      var first, second := PeekIndex(0), PeekIndex(1);
      if !(first == Some('/') && second == Some('/')) {
        return None;
      }
      while true
        invariant old(pos) <= pos <= |data|
        invariant LineEnd(data, pos) == LineEnd(data, old(pos))
        decreases |data| - pos
      {
        var c := Peek();
        if c.None? {
          break;
        }
        var _ := Next();
        if c.value == '\n' {
          break;
        }
      }
      return Some(());
    }

    // Skips a `/*` comment up to and including the first `*/`, or to the end
    // of the input when it is not closed. Block comments do not nest.
    method BlockComment() returns (r: Option<()>)
      modifies this
      ensures r.Some? <==> OpensBlock(data, old(pos))
      ensures r.Some? ==> pos == BlockEnd(data, old(pos))
      ensures r.None? ==> pos == old(pos)
      ensures old(Valid()) ==> Valid()
    {
      var first, second := PeekIndex(0), PeekIndex(1);
      if !(first == Some('/') && second == Some('*')) {
        return None;
      }
      while true
        invariant old(pos) <= pos <= |data|
        invariant BlockEnd(data, pos) == BlockEnd(data, old(pos))
        decreases |data| - pos
      {
        var c := Peek();
        if c.None? {
          break;
        }
        var _ := Next();
        var d := Peek();
        if c.value == '*' && d == Some('/') {
          var _ := Next();
          break;
        }
      }
      return Some(());
    }

    /** A line comment if one starts here, else a block comment. */
    method Comment() returns (r: Option<()>)
      modifies this
      ensures r.None? <==> !OpensLine(data, old(pos)) && !OpensBlock(data, old(pos))
      ensures r.None? ==> pos == old(pos)
      ensures OpensLine(data, old(pos)) ==> pos == LineEnd(data, old(pos))
      ensures OpensBlock(data, old(pos)) ==> pos == BlockEnd(data, old(pos))
      ensures r.Some? ==> old(pos) + 2 <= pos <= |data|
      ensures old(Valid()) ==> Valid()
    {
      r := LineComment();
      if r.None? {
        r := BlockComment();
      }
    }

    // A line comment starts at `p` and whitespace follows it.
    predicate SpaceAfterLineComment(p: nat)
      reads this
    {
      OpensLine(data, p) && LineEnd(data, p) < |data| && IsSpace(data[LineEnd(data, p)])
    }

    // A block comment starts at `p` and whitespace follows it.
    predicate SpaceAfterBlockComment(p: nat)
      reads this
    {
      OpensBlock(data, p) && BlockEnd(data, p) < |data| && IsSpace(data[BlockEnd(data, p)])
    }

    /** `skip` as written: whitespace, then comments each followed by
        whitespace. When it ends, the cursor is on neither whitespace nor a
        comment opener; its `spaces` never ends on whitespace, and `done` is
        false exactly when that was reached or the fuel ran out. */
    method Skip(fuel: nat) returns (done: bool)
      modifies this
      ensures old(pos) <= pos
      ensures old(Valid()) ==> Valid()
      ensures done ==> !SpaceAt() && !OpensLine(data, pos) && !OpensBlock(data, pos)
      ensures !done ==> fuel == 0 || SpaceAt()
      ensures old(SpaceAt()) ==> !done && pos == old(pos)
      ensures SpaceAfterLineComment(old(pos)) ==> !done && (fuel > 0 ==> pos == LineEnd(data, old(pos)))
      ensures SpaceAfterBlockComment(old(pos)) ==> !done && (fuel > 0 ==> pos == BlockEnd(data, old(pos)))
      ensures done && old(pos) <= |data| ==> pos == SkipEnd(data, old(pos))
      ensures fuel > 0 && old(pos) <= |data| ==> (done <==> SkipStops(data, old(pos)))
    {
      done := Spaces(fuel);
      if !done {
        return;
      }
      while true
        invariant old(pos) <= pos
        invariant old(Valid()) ==> Valid()
        invariant done && !SpaceAt()
        invariant SpaceAfterLineComment(old(pos)) || SpaceAfterBlockComment(old(pos)) ==> pos == old(pos)
        invariant old(pos) <= |data| ==> pos <= |data| && SkipEnd(data, pos) == SkipEnd(data, old(pos))
        invariant old(pos) <= |data| ==> SkipStops(data, pos) == SkipStops(data, old(pos))
        decreases |data| - pos
      {
        var c := Comment();
        if c.None? {
          return;
        }
        done := Spaces(fuel);
        if !done {
          return;
        }
      }
    }

    /** `skip` over the intended `spaces`: it always ends, on neither whitespace
        nor a comment opener. */
    method SkipIntended()
      modifies this
      ensures old(pos) <= pos
      ensures old(Valid()) ==> Valid()
      ensures !SpaceAt() && !OpensLine(data, pos) && !OpensBlock(data, pos)
      ensures old(pos) <= |data| ==> pos == SkipEnd(data, old(pos))
    {
      SpacesIntended();
      if old(pos) <= |data| {
        SkipEndAfterSpaces(data, old(pos));
      }
      while true
        invariant old(pos) <= pos
        invariant old(Valid()) ==> Valid()
        invariant !SpaceAt()
        invariant old(pos) <= |data| ==> pos <= |data| && SpacesEnd(data, pos) == pos
        invariant old(pos) <= |data| ==> SkipEnd(data, pos) == SkipEnd(data, old(pos))
        decreases |data| - pos
      {
        var c := Comment();
        if c.None? {
          return;
        }
        ghost var mid := pos;
        SpacesIntended();
        if old(pos) <= |data| {
          SkipEndAfterSpaces(data, mid);
          SpacesEndIdempotent(data, mid);
        }
      }
    }
  }
}
