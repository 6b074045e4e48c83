/**
 * Pieces, the board contents, the last-move record and the turn order.
 * The board is the explicit replacement for the page's squares: one
 * optional piece per cell, plus the set of squares marked inactive.
 */
module Pieces {
  import opened Wrappers
  import opened Squares

  datatype Colour = Red | Blue | Yellow | Green

  datatype Kind = Pawn | Rook | Knight | Bishop | Queen | King

  /** A piece: its type class, its colour class and its `first-move` class. */
  datatype Piece = Piece(kind: Kind, colour: Colour, firstMove: bool)

  const NoPieces: seq<Option<Piece>> := seq(CellCount, i => None)

  /** The contents of all 196 squares, cell `Index(c)` for square `c`. */
  type Grid = s: seq<Option<Piece>> | |s| == CellCount witness NoPieces

  /** A board: what stands on each square, and which squares are inactive. */
  datatype Board = Board(cells: Grid, inactive: set<Coord>)

  /** `isValidSquare(getSquareAt(c))`: on the grid and not marked inactive. */
  predicate IsValidSquare(b: Board, c: Coord) {
    InGrid(c) && c !in b.inactive
  }

  /** The piece on square `c`, if any (`square.querySelector('.piece')`). */
  function Occupant(b: Board, c: Coord): Option<Piece>
    requires InGrid(c)
  {
    b.cells[Index(c)]
  }

  /** A valid square that holds no piece. */
  predicate ValidEmpty(b: Board, c: Coord) {
    IsValidSquare(b, c) && Occupant(b, c).None?
  }

  /** A valid square that holds a piece not of `colour`. */
  predicate Enemy(b: Board, c: Coord, colour: Colour) {
    IsValidSquare(b, c) && Occupant(b, c).Some? && Occupant(b, c).value.colour != colour
  }

  /** A square a piece of `colour` may land on: valid and not holding its own colour. */
  predicate Reachable(b: Board, c: Coord, colour: Colour) {
    ValidEmpty(b, c) || Enemy(b, c, colour)
  }

  /** The record of the move just made, consulted for en passant. */
  datatype LastMove = LastMove(kind: Kind, colour: Colour, from: Coord, to: Coord, twoSquare: bool)

  const TurnOrder: seq<Colour> := [Red, Blue, Yellow, Green]

  /** The colour that plays after `c`, stated independently of `TurnOrder`. */
  function Successor(c: Colour): Colour {
    match c
    case Red => Blue
    case Blue => Yellow
    case Yellow => Green
    case Green => Red
  }

  /** `(currentTurnIndex + 1) % turnOrder.length`. */
  function NextTurnIndex(i: int): (j: int)
    requires 0 <= i < |TurnOrder|
    ensures 0 <= j < |TurnOrder|
    ensures TurnOrder[j] == Successor(TurnOrder[i])
  {
    (i + 1) % |TurnOrder|
  }

  /** Every colour has its turn exactly once in every four moves. */
  lemma TurnsCycle(i: int)
    requires 0 <= i < |TurnOrder|
    ensures NextTurnIndex(NextTurnIndex(NextTurnIndex(NextTurnIndex(i)))) == i
    ensures var j1 := NextTurnIndex(i); var j2 := NextTurnIndex(j1); var j3 := NextTurnIndex(j2);
      {TurnOrder[i], TurnOrder[j1], TurnOrder[j2], TurnOrder[j3]} == {Red, Blue, Yellow, Green}
  {
  }
}
