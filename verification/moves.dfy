/** The (x, y, player) record shared by the game and the AI, and the move
    stack the game keeps for undo. */
module Moves {

  /** Stands for a Java reference that may be `null`. */
  datatype Option<T> = None | Some(value: T)

  /** A placed (or proposed) stone: column x, row y, and the colour tag
      (`true` black, `false` white/AI). The record checks nothing about its
      fields; only its constructor writes them. */
  datatype Move = Move(x: int, y: int, player: bool)

  /** The `java.util.Stack<Move>` holding the move history: the top of the
      stack is the last element of `elems`. */
  class MoveStack {
    var elems: seq<Move>

    constructor ()
      ensures elems == []
    {
      elems := [];
    }

    predicate IsEmpty()
      reads this
    {
      elems == []
    }

    function Size(): nat
      reads this
    {
      |elems|
    }

    method Push(m: Move)
      modifies this
      ensures elems == old(elems) + [m]
    {
      elems := elems + [m];
    }

    /** Java throws on an empty stack; every caller checks first. */
    method Pop() returns (m: Move)
      requires elems != []
      modifies this
      ensures m == old(elems)[|old(elems)| - 1]
      ensures elems == old(elems)[..|old(elems)| - 1]
    {
      m := elems[|elems| - 1];
      elems := elems[..|elems| - 1];
    }

    method Clear()
      modifies this
      ensures elems == []
    {
      elems := [];
    }
  }
}
