/**
 * The game session: the board squares, the list of valid moves of the
 * piece being dragged, the last move, and whose turn it is. The methods
 * are the move generators, which append to `validMoves` as they walk the
 * board, and the drop handler, which carries out a move and passes the
 * turn on.
 */
module Engine {
  import opened Wrappers
  import opened Squares
  import opened Pieces
  import opened Moves
  import opened Execution

  class Game {
    /** The squares: cell `Index(c)` holds the piece on square `c`, if any. */
    const board: array<Option<Piece>>
    /** The squares marked inactive on the page. */
    const inactive: set<Coord>
    /** Destinations computed for the piece picked up last. */
    var validMoves: seq<Coord>
    /** The move made last; None before the first move. */
    var lastMove: Option<LastMove>
    var currentTurnIndex: int
    var currentTurn: Colour

    ghost predicate Valid()
      reads this
    {
      && board.Length == CellCount
      && 0 <= currentTurnIndex < |TurnOrder|
      && currentTurn == TurnOrder[currentTurnIndex]
    }

    /** The board as a value, for the move-generation and execution functions. */
    function Snapshot(): Board
      reads board
      requires board.Length == CellCount
    {
      Board(board[..], inactive)
    }

    /** A new game with the given starting layout and inactive squares; red moves first. */
    constructor (layout: Grid, inactiveSquares: set<Coord>)
      ensures Valid() && fresh(board)
      ensures Snapshot() == Board(layout, inactiveSquares)
      ensures validMoves == [] && lastMove == None
      ensures currentTurnIndex == 0 && currentTurn == Red
    {
      board := new Option<Piece>[CellCount](i => if 0 <= i < |layout| then layout[i] else None);
      inactive := inactiveSquares;
      validMoves := [];
      lastMove := None;
      currentTurnIndex := 0;
      currentTurn := TurnOrder[0];
      new;
      assert board[..] == layout;
    }

    /** Whether the piece on `from` may be dragged: it has the colour whose turn it is. */
    predicate Draggable(from: Coord)
      reads this, board
      requires board.Length == CellCount && InGrid(from)
    {
      board[Index(from)].Some? && board[Index(from)].value.colour == currentTurn
    }

    /** `validMoves` holds the destinations of the piece on `from`. */
    predicate Picked(from: Coord)
      reads this, board
      requires board.Length == CellCount && InGrid(from)
    {
      board[Index(from)].Some? && validMoves == ValidMoves(Snapshot(), from, lastMove)
    }

    /** Whether the drop handler carries out a drop of the piece on `from` onto `to`. */
    predicate Accepts(from: Coord, to: Coord)
      reads this, board
      requires board.Length == CellCount && InGrid(from)
    {
      to in validMoves && Draggable(from)
    }

    // ---- move generation ------------------------------------------------

    /** `calculateValidMoves`: reset the list, then let the piece's generator fill it. */
    method CalculateValidMoves(pos: Coord) returns (moves: seq<Coord>)
      requires Valid() && InGrid(pos) && board[Index(pos)].Some?
      modifies this`validMoves
      ensures validMoves == ValidMoves(Snapshot(), pos, lastMove)
      ensures moves == validMoves
    {
      var piece := board[Index(pos)].value;
      var color := piece.colour;
      validMoves := [];
      match piece.kind {
        case Pawn => CalculatePawnMoves(pos, color, piece.firstMove);
        case Rook => CalculateRookMoves(pos, color);
        case Knight => CalculateKnightMoves(pos, color);
        case Bishop => CalculateBishopMoves(pos, color);
        case Queen => CalculateQueenMoves(pos, color);
        case King => CalculateKingMoves(pos, color);
      }
      moves := validMoves;
    }

    /** `calculatePawnMoves`: forward moves, then captures, then en passant. */
    method CalculatePawnMoves(pos: Coord, color: Colour, firstMove: bool)
      requires Valid()
      modifies this`validMoves
      ensures validMoves == old(validMoves) + PawnMoves(Snapshot(), pos, color, firstMove, lastMove)
    {
      ghost var b := Snapshot();
      PushForward(pos, color, firstMove);
      ghost var forward := Forward(b, pos, color, firstMove);
      assert validMoves == old(validMoves) + forward;
      ghost var afterForward := validMoves;
      PushCaptures(pos, color, CaptureOffsets(color));
      ghost var captures := Captures(b, pos, color, CaptureOffsets(color));
      assert validMoves == afterForward + captures;
      ghost var afterCaptures := validMoves;
      ghost var passing := EnPassant(b, pos, color, lastMove);
      if lastMove.Some? && lastMove.value.kind == Pawn && lastMove.value.twoSquare {
        PushPassing(pos, color, lastMove.value, AdjacentOffsets(color));
        assert passing == PassingScan(b, pos, color, lastMove.value, AdjacentOffsets(color));
      } else {
        assert passing == [];
      }
      assert validMoves == afterCaptures + passing;
      assert PawnMoves(b, pos, color, firstMove, lastMove) == forward + captures + passing;
      Moves.AppendAssoc4(old(validMoves), forward, captures, passing);
    }

    /** The forward block of `calculatePawnMoves`: one step, then two on the first move. */
    method PushForward(pos: Coord, color: Colour, firstMove: bool)
      requires Valid()
      modifies this`validMoves
      ensures validMoves == old(validMoves) + Forward(Snapshot(), pos, color, firstMove)
    {
      ghost var b := Snapshot();
      var direction := PawnDir(color);
      var newPos := pos.Plus(direction);
      var twoSquarePos := Coord(pos.x + direction.x * 2, pos.y + direction.y * 2);
      assert twoSquarePos == Step(pos, direction, 2);
      EmptyHere(b, newPos);
      EmptyHere(b, twoSquarePos);
      if InGrid(newPos) && newPos !in inactive && board[Index(newPos)].None? {
        validMoves := validMoves + [newPos];
        if firstMove {
          if InGrid(twoSquarePos) && twoSquarePos !in inactive && board[Index(twoSquarePos)].None? {
            validMoves := validMoves + [twoSquarePos];
          }
        }
      }
    }

    /** An empty valid square of the snapshot is one the methods see as valid and empty. */
    lemma EmptyHere(b: Board, c: Coord)
      requires board.Length == CellCount && b == Snapshot()
      ensures ValidEmpty(b, c) <==> InGrid(c) && c !in inactive && board[Index(c)].None?
    {
    }

    /** The capture loop of `calculatePawnMoves`: squares at the offsets that hold another colour. */
    method PushCaptures(pos: Coord, color: Colour, captureMoves: seq<Coord>)
      requires Valid()
      modifies this`validMoves
      ensures validMoves == old(validMoves) + Captures(Snapshot(), pos, color, captureMoves)
    {
      ghost var b := Snapshot();
      for i := 0 to |captureMoves|
        invariant validMoves == old(validMoves) + Captures(b, pos, color, captureMoves[..i])
      {
        ghost var prev := validMoves;
        var capturePos := pos.Plus(captureMoves[i]);
        ghost var step := if Enemy(b, capturePos, color) then [capturePos] else [];
        if InGrid(capturePos) && capturePos !in inactive {
          var pieceOnSquare := board[Index(capturePos)];
          assert pieceOnSquare == Occupant(b, capturePos);
          if pieceOnSquare.Some? && pieceOnSquare.value.colour != color {
            validMoves := validMoves + [capturePos];
          }
        }
        assert validMoves == prev + step;
        assert captureMoves[..i + 1][..i] == captureMoves[..i];
        assert Captures(b, pos, color, captureMoves[..i + 1]) == Captures(b, pos, color, captureMoves[..i]) + step;
        Moves.AppendAssoc(old(validMoves), Captures(b, pos, color, captureMoves[..i]), step);
      }
      assert captureMoves[..|captureMoves|] == captureMoves;
    }

    /** The en-passant loop of `calculatePawnMoves`, run after a pawn's two-square move. */
    method PushPassing(pos: Coord, color: Colour, last: LastMove, adjMoves: seq<Coord>)
      requires Valid()
      modifies this`validMoves
      ensures validMoves == old(validMoves) + PassingScan(Snapshot(), pos, color, last, adjMoves)
    {
      ghost var b := Snapshot();
      var direction := PawnDir(color);
      for i := 0 to |adjMoves|
        invariant validMoves == old(validMoves) + PassingScan(b, pos, color, last, adjMoves[..i])
      {
        ghost var prev := validMoves;
        var adjPos := pos.Plus(adjMoves[i]);
        var epSquare := last.from.Plus(direction);
        ghost var step := if adjPos == last.to && ValidEmpty(b, epSquare) then [epSquare] else [];
        if adjPos == last.to {
          EmptyHere(b, epSquare);
          if InGrid(epSquare) && epSquare !in inactive && board[Index(epSquare)].None? {
            validMoves := validMoves + [epSquare];
          }
        }
        assert validMoves == prev + step;
        assert adjMoves[..i + 1][..i] == adjMoves[..i];
        assert PassingScan(b, pos, color, last, adjMoves[..i + 1]) == PassingScan(b, pos, color, last, adjMoves[..i]) + step;
        Moves.AppendAssoc(old(validMoves), PassingScan(b, pos, color, last, adjMoves[..i]), step);
      }
      assert adjMoves[..|adjMoves|] == adjMoves;
    }

    /** `calculateStraightLine`: walk each direction in turn. */
    method CalculateStraightLine(pos: Coord, color: Colour, directions: seq<Dir>)
      requires Valid()
      modifies this`validMoves
      ensures validMoves == old(validMoves) + Slide(Snapshot(), pos, color, directions)
    {
      ghost var b := Snapshot();
      for i := 0 to |directions|
        invariant validMoves == old(validMoves) + Slide(b, pos, color, directions[..i])
      {
        ghost var prev := validMoves;
        var dir := directions[i];
        WalkRay(pos, color, dir);
        assert validMoves == prev + Ray(b, pos.Plus(dir), dir, color);
        assert directions[..i + 1] == directions[..i] + [dir];
        SlideSnoc(b, pos, color, directions[..i], dir);
        Moves.AppendAssoc(old(validMoves), Slide(b, pos, color, directions[..i]), Ray(b, pos.Plus(dir), dir, color));
      }
      assert directions[..|directions|] == directions;
    }

    /**
     * The callback `calculateStraightLine` runs for one direction: step
     * along it until an invalid or occupied square.
     */
    method WalkRay(pos: Coord, color: Colour, dir: Dir)
      requires Valid()
      modifies this`validMoves
      ensures validMoves == old(validMoves) + Ray(Snapshot(), pos.Plus(dir), dir, color)
    {
      ghost var b := Snapshot();
      ghost var start := validMoves;
      ghost var whole := Ray(b, pos.Plus(dir), dir, color);
      var currentPos := pos.Plus(dir);
      while true
        invariant start + whole == validMoves + Ray(b, currentPos, dir, color)
        decreases Budget(currentPos, dir)
      {
        if !(InGrid(currentPos) && currentPos !in inactive) {
          assert Ray(b, currentPos, dir, color) == [];
          break;
        }
        var pieceOnSquare := board[Index(currentPos)];
        assert pieceOnSquare == Occupant(b, currentPos);
        if pieceOnSquare.Some? {
          if pieceOnSquare.value.colour != color {
            assert Ray(b, currentPos, dir, color) == [currentPos];
            validMoves := validMoves + [currentPos];
          } else {
            assert Ray(b, currentPos, dir, color) == [];
          }
          break;
        }
        ghost var rest := Ray(b, currentPos.Plus(dir), dir, color);
        assert Ray(b, currentPos, dir, color) == [currentPos] + rest;
        Moves.AppendAssoc(validMoves, [currentPos], rest);
        validMoves := validMoves + [currentPos];
        currentPos := currentPos.Plus(dir);
      }
      assert validMoves == start + whole;
    }

    method CalculateRookMoves(pos: Coord, color: Colour)
      requires Valid()
      modifies this`validMoves
      ensures validMoves == old(validMoves) + Slide(Snapshot(), pos, color, RookDirs)
    {
      CalculateStraightLine(pos, color, RookDirs);
    }

    method CalculateBishopMoves(pos: Coord, color: Colour)
      requires Valid()
      modifies this`validMoves
      ensures validMoves == old(validMoves) + Slide(Snapshot(), pos, color, BishopDirs)
    {
      CalculateStraightLine(pos, color, BishopDirs);
    }

    /** `calculateQueenMoves`: the rook's moves, then the bishop's. */
    method CalculateQueenMoves(pos: Coord, color: Colour)
      requires Valid()
      modifies this`validMoves
      ensures validMoves == old(validMoves) + Slide(Snapshot(), pos, color, QueenDirs)
    {
      CalculateRookMoves(pos, color);
      CalculateBishopMoves(pos, color);
      QueenIsRookThenBishop(Snapshot(), pos, color);
    }

    /** The loop shared by `calculateKnightMoves` and `calculateKingMoves`. */
    method PushJumps(pos: Coord, color: Colour, moves: seq<Coord>)
      requires Valid()
      modifies this`validMoves
      ensures validMoves == old(validMoves) + Jumps(Snapshot(), pos, color, moves)
    {
      ghost var b := Snapshot();
      for i := 0 to |moves|
        invariant validMoves == old(validMoves) + Jumps(b, pos, color, moves[..i])
      {
        ghost var prev := validMoves;
        var newPos := pos.Plus(moves[i]);
        ghost var step := if Reachable(b, newPos, color) then [newPos] else [];
        if InGrid(newPos) && newPos !in inactive {
          var pieceOnSquare := board[Index(newPos)];
          assert pieceOnSquare == Occupant(b, newPos);
          if pieceOnSquare.None? || pieceOnSquare.value.colour != color {
            validMoves := validMoves + [newPos];
          }
        }
        assert validMoves == prev + step;
        assert moves[..i + 1][..i] == moves[..i];
        assert Jumps(b, pos, color, moves[..i + 1]) == Jumps(b, pos, color, moves[..i]) + step;
        Moves.AppendAssoc(old(validMoves), Jumps(b, pos, color, moves[..i]), step);
      }
      assert moves[..|moves|] == moves;
    }

    method CalculateKnightMoves(pos: Coord, color: Colour)
      requires Valid()
      modifies this`validMoves
      ensures validMoves == old(validMoves) + Jumps(Snapshot(), pos, color, KnightOffsets)
    {
      PushJumps(pos, color, KnightOffsets);
    }

    method CalculateKingMoves(pos: Coord, color: Colour)
      requires Valid()
      modifies this`validMoves
      ensures validMoves == old(validMoves) + Jumps(Snapshot(), pos, color, KingOffsets)
    {
      PushJumps(pos, color, KingOffsets);
    }

    // ---- moving ---------------------------------------------------------

    /**
     * Picking up a piece (the dragstart and mousedown handlers): only the
     * pieces of the colour whose turn it is react, and they compute their
     * valid moves.
     */
    method PickUp(from: Coord)
      requires Valid() && InGrid(from)
      modifies this`validMoves
      ensures Draggable(from) ==> Picked(from)
      ensures !Draggable(from) ==> validMoves == old(validMoves)
    {
      if board[Index(from)].Some? && board[Index(from)].value.colour == currentTurn {
        var moves := CalculateValidMoves(from);
      }
    }

    /** The dragend handler: a cancelled drag forgets the computed moves. */
    method DragEnd()
      modifies this`validMoves
      ensures validMoves == []
    {
      validMoves := [];
    }

    /**
     * The drop handler: a drop onto a square outside `validMoves`, or of a
     * piece that is not draggable, does nothing. Otherwise the piece on
     * `to` is removed, the mover is placed on `to` (a pawn losing its
     * `first-move` mark), the move is recorded, the list is cleared and
     * the turn passes to the next colour.
     */
    method Drop(from: Coord, to: Coord)
      requires Valid() && InGrid(from) && InGrid(to)
      modifies this, board
      ensures Valid()
      ensures !old(Accepts(from, to)) ==> unchanged(this) && unchanged(board)
      ensures old(Accepts(from, to)) && from == to ==>
        unchanged(this) && board[..] == old(board[..])[Index(from) := None]
      ensures old(Accepts(from, to)) && from != to ==>
        var p := old(board[Index(from)]).value;
        && board[..] == Relocate(old(board[..]), from, to)
        && lastMove == Some(LastMove(p.kind, p.colour, from, to, IsTwoSquare(p.kind, from, to)))
        && validMoves == []
        && currentTurnIndex == NextTurnIndex(old(currentTurnIndex))
        && currentTurn == Successor(old(currentTurn))
      ensures old(Picked(from)) && old(Accepts(from, to)) ==>
        from != to && Reachable(old(Snapshot()), to, old(board[Index(from)]).value.colour)
    {
      if to !in validMoves {
        return;
      }
      var pieceElement := board[Index(from)];
      if !(pieceElement.Some? && pieceElement.value.colour == currentTurn) {
        return;
      }
      var p := pieceElement.value;
      if from == to {
        // The capture step takes the mover itself off the square, and taking
        // it off `from` afterwards fails, which ends the handler.
        board[Index(to)] := None;
        return;
      }
      ghost var before := board[..];
      IndexInjective(from, to);
      board[Index(to)] := None;
      board[Index(from)] := None;
      board[Index(to)] := Some(Moved(p));
      assert board[..] == before[Index(from) := None][Index(to) := Some(Moved(p))];

      lastMove := Some(LastMove(p.kind, p.colour, from, to, IsTwoSquare(p.kind, from, to)));
      validMoves := [];
      currentTurnIndex := (currentTurnIndex + 1) % |TurnOrder|;
      currentTurn := TurnOrder[currentTurnIndex];
    }
  }
}
